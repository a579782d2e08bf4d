/** Whole runs of the coverage strategy: what the end of a fuzzing run says about the programs and their executions. */
module FuzzingVerdicts {
  import opened Words
  import opened Instructions
  import opened Encoding
  import opened Random
  import opened Machine
  import opened ControlFlow
  import opened Oracle
  import opened Executions
  import opened CoveragePrograms
  import opened CoverageStrategy
  import opened CoverageOracle
  import opened Protocol
  import opened KernelInterface
  import opened ControlUnit

  // ---------------------------------------------------------------- one execution

  /** Number of instructions in the bytes. */
  function CodeLength(code: seq<Byte>): nat {
    match Decode(code, 0)
    case Ok(q) => |q|
    case UnknownOpcode => 0
  }

  const MAX_LENGTH: nat := HEAD_SIZE + 0x8000 + 13

  /** What submitted bytes decode to, with the descriptor that all their map loads name. */
  lemma CodeOf(code: seq<Byte>, v: seq<int>, fd: int) returns (p: seq<Instruction>, reg: nat)
    requires CoverageCode(code, v) && CodeNames(code, fd)
    ensures |v| == 9 && CoverageProgram(p, v) && reg <= 9 && p[0] == LdMapByFd(R1, fd)
    ensures var q := p + Footer(reg, fd);
            && AllEncodable(q) && code == Encode(q, |q|) && Decode(code, 0) == Ok(q)
            && |q| == |p| + 13 && q[|p|].src == reg && SlotOf(q, |q| - 13) == SlotOf(q, |p|)
  {
    hide CoverageProgram, Footer, Encode, Decode, AllEncodable, SlotOf, LdMapByFd;
    var f;
    p, reg, f :| EncodesCoverage(code, v, p, reg, f);
    var q := p + Footer(reg, f);
    CoverageLength(p, v);
    EmittedNamesMap(p, v, reg, f);
    ProgramRoundTrip(q);
    PatchKeepsCoverageProgram(p, f, v);
    assert q[0] == p[0];
    assert q[|p| + 1] == Footer(reg, f)[1];
    assert q[|p|] == Footer(reg, f)[0];
    FooterLoads(reg, f, fd);
    MapLoadShape(p[0]);
    assert p[0].imm == fd;
  }

  lemma CoverageLength(p: seq<Instruction>, v: seq<int>)
    requires |v| == 9 && CoverageProgram(p, v)
    ensures |p| >= HEAD_SIZE && IsI32(p[0].imm)
  {
  }

  lemma MapLoadShape(i: Instruction)
    requires i == LdMapByFd(R1, i.imm)
    ensures IsMapLoad(i)
  {
  }

  lemma FooterLoads(reg: nat, f: int, fd: int)
    ensures Footer(reg, f)[0].src == reg && IsMapLoad(Footer(reg, f)[1])
    ensures Footer(reg, f)[1].imm == fd ==> Footer(reg, f) == Footer(reg, fd)
  {
    assert I32(I32(f)) == I32(f);
  }

  /** The verdict is good exactly if the execution took place and its footer saw zero; a footer sees just one value. */
  lemma VerdictIsExact(code: seq<Byte>, v: seq<int>, fd: int, run: PlatformRun, reply: seq<nat>) returns (x: Word)
    requires CoverageCode(code, v) && CodeNames(code, fd) && CodeLength(code) <= MAX_LENGTH && ReadsBack(run, code, fd, 1, reply)
    ensures Verdict(Some(reply)) == Some(run.executed && x == 0)
    ensures forall y: Word :: FooterSees(run, code, 13, y) <==> y == x
  {
    hide CoverageProgram, Footer, Encode, Decode, AllEncodable, ControlFlow.Closed, AllSupported, SlotRun, SlotOf, LookupWorks, MapAt, Element;
    hide LdMapByFd, CodeNames, CoverageCode, FooterSees;
    var p, reg := CodeOf(code, v, fd);
    var q := p + Footer(reg, fd);
    assert Element(run.s0.mem, run.base, 0) == 0;
    var k, s, t := CoverageOracleIsExact(run.w, p, v, reg, fd, run.base, run.s0);
    x := Get(s, reg);
    if run.executed {
      var n: nat :| Leaves(run, code, 1, n, reply);
      HaltedOnce(run.w, code, n, k + 12, Running(0, run.s0));
    }
    EmittedIsClosed(p, v, reg, fd);
    assert ArrivesWith(run, code, SlotOf(q, |q| - 13), q[|q| - 13].src, k, x);
    FooterSeesOne(run, q, 13, k, x);
  }

  // ---------------------------------------------------------------- whole runs

  /** Every look at the map in the log returned what the execution of the program before it, if there was one, left there. */
  ghost predicate Honest(log: seq<Event>, runs: nat -> PlatformRun) {
    forall k | 5 <= k < |log| && log[k].ExecuteDone? && log[k - 1].MapRead? && log[k - 5].Loaded? ::
      log[k - 1].elements.Some? && ReadsBack(runs(k), log[k - 5].code, log[k - 1].fd, 1, log[k - 1].elements.value)
  }

  ghost predicate ShortPrograms(log: seq<Event>) {
    forall k | 0 <= k < |log| && log[k].Loaded? :: CodeLength(log[k].code) <= MAX_LENGTH
  }

  ghost predicate SeesNonzero(run: PlatformRun, code: seq<Byte>) {
    exists x: Word :: x != 0 && FooterSees(run, code, 13, x)
  }

  /** The program judged at k was executed, and came to its footer with something other than zero in the tested register. */
  ghost predicate Caught(log: seq<Event>, runs: nat -> PlatformRun, k: nat) {
    5 <= k < |log| && log[k].ExecuteDone? && log[k - 5].Loaded? && runs(k).executed && SeesNonzero(runs(k), log[k - 5].code)
  }

  /** The program judged at k was not executed. */
  ghost predicate NotRun(log: seq<Event>, runs: nat -> PlatformRun, k: nat) {
    k < |log| && log[k].ExecuteDone? && !runs(k).executed
  }

  /** Every verdict is bad exactly if the program was caught or was not executed. */
  lemma JudgedRight(log: seq<Event>, v: seq<int>, runs: nat -> PlatformRun, k: nat)
    requires Lawful(log) && CoverageLog(log, v) && Honest(log, runs) && ShortPrograms(log) && k < |log| && log[k].ExecuteDone?
    ensures log[k] == ExecuteDone(false) <==> Caught(log, runs, k) || NotRun(log, runs, k)
  {
    hide Lawful, CoverageCode, CodeNames, CodeLength, ReadsBack, FooterSees, Verdict;
    assert FitsAfter(log[..k], log[k], v);
    VerdictFollows(log, k);
    assert FitsAfter(log[..k - 5], log[k - 5], v);
    var x := VerdictIsExact(log[k - 5].code, v, log[k - 1].fd, runs(k), log[k - 1].elements.value);
    assert FooterSees(runs(k), log[k - 5].code, 13, x);
  }

  ghost predicate SomeCaught(log: seq<Event>, runs: nat -> PlatformRun) {
    exists k: nat :: Caught(log, runs, k)
  }

  ghost predicate SomeNotRun(log: seq<Event>, runs: nat -> PlatformRun) {
    exists k: nat :: NotRun(log, runs, k)
  }

  lemma BadMeansCaught(log: seq<Event>, v: seq<int>, runs: nat -> PlatformRun)
    requires Lawful(log) && CoverageLog(log, v) && Honest(log, runs) && ShortPrograms(log)
    ensures NoneBad(log) <==> !SomeCaught(log, runs) && !SomeNotRun(log, runs)
  {
    hide Lawful, CoverageLog, Honest, ShortPrograms, Caught, NotRun;
    forall k: nat
      ensures k < |log| && log[k].ExecuteDone? ==> (log[k] == ExecuteDone(false) <==> Caught(log, runs, k) || NotRun(log, runs, k))
      ensures Caught(log, runs, k) || NotRun(log, runs, k) ==> k < |log| && log[k].ExecuteDone?
    {
      CaughtIsJudged(log, runs, k);
      if k < |log| && log[k].ExecuteDone? {
        JudgedRight(log, v, runs, k);
      }
    }
  }

  lemma CaughtIsJudged(log: seq<Event>, runs: nat -> PlatformRun, k: nat)
    ensures Caught(log, runs, k) || NotRun(log, runs, k) ==> k < |log| && log[k].ExecuteDone?
  {
  }

  /**
   * A fresh strategy, a kernel with some descriptors already open and any stream of draws: nothing else is assumed. No
   * program descriptor is left and all others are accounted for. If each look at the map shows what the execution before
   * it left there, the fuzzer is done exactly when it has caught a program whose tested register was not zero, or when
   * an execution has not taken place; that is then the last one.
   */
  method Fuzz(v: seq<int>, inherited: set<nat>, script: nat -> Answer, draws: seq<nat>, rounds: nat) returns (c: Control, o: Outcome)
    requires |v| == 9
    ensures c.Tidy() && c.strat.constants == v && c.ffi.inherited == inherited && c.ffi.script == script && !o.Continue?
    ensures Counted(o, rounds, c.strat.programCount, Loads(c.ffi.log)) && c.Accounted(o)
    ensures c.ffi.open == inherited + if c.strat.mapFd >= 0 then {c.strat.mapFd} else {}
    ensures Opens(c.ffi.log) == Closes(c.ffi.log) + if c.strat.mapFd >= 0 then 1 else 0
    ensures Candid(c.ffi.log) && (o.Done? ==> EndsBadly(c.ffi.log))
    ensures forall runs | Honest(c.ffi.log, runs) && ShortPrograms(c.ffi.log) ::
              o.Done? <==> SomeCaught(c.ffi.log, runs) || SomeNotRun(c.ffi.log, runs)
  {
    hide CoverageBased.Valid, FFI.Valid, Control.Sound, Control.Accounted, EndsBadly, NoneBad, Candid, Opens, Closes, Honest, ShortPrograms, SomeCaught, SomeNotRun;
    var strat := new CoverageBased(v);
    var ffi := new FFI(inherited, script);
    var rng := new Rng(draws);
    c := new Control(strat, ffi, rng);
    RunBegins(c);
    NothingBadYet();
    o := c.RunFuzzer(rounds);
    c.OnlyTheMapIsOpen();
    if o.Done? {
      BadIsNotGood(c.ffi.log);
    }
    SoundLog(c);
    CoverageIsCandid(c.ffi.log, v);
    forall runs | Honest(c.ffi.log, runs) && ShortPrograms(c.ffi.log)
      ensures o.Done? <==> SomeCaught(c.ffi.log, runs) || SomeNotRun(c.ffi.log, runs)
    {
      BadMeansCaught(c.ffi.log, v, runs);
    }
  }

  lemma NothingBadYet()
    ensures NoneBad([])
  {
  }

  lemma SoundLog(c: Control)
    requires c.Sound()
    ensures Lawful(c.ffi.log) && CoverageLog(c.ffi.log, c.strat.constants)
  {
  }
}
