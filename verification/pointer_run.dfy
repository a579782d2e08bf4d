/** The fuzzing loop over the pointer-arithmetic strategy, which holds on to its map without having asked for the first one. */
module PointerRuns {
  import opened Words
  import opened Instructions
  import opened Encoding
  import opened Random
  import opened Generators
  import opened Machine
  import opened Oracle
  import opened Executions
  import ControlFlow
  import opened Protocol
  import opened KernelInterface
  import opened CoveragePrograms
  import opened PointerArithmeticStrategy
  import opened ControlUnit

  /** So far, candour has been the kernel's merit. */
  ghost predicate CandidIfNoneRefused(log: seq<Event>) {
    Candid(log) <==> NoneRefused(log)
  }

  lemma RoundCandour(log: seq<Event>, o: Outcome, code: seq<Byte>, fd: int, mapFd: int, reply: Option<seq<nat>>, ok: bool)
    requires CandidIfNoneRefused(log)
    requires o.RunError? || o.IndexPanic? ==> fd >= 0
    ensures CandidIfNoneRefused(log + ApprovingEvents(o, code, fd, mapFd, reply, ok))
  {
    var events := ApprovingEvents(o, code, fd, mapFd, reply, ok);
    CandidSplits(log, events);
    RefusalSplits(log, events);
    if events != [] {
      assert events[0] == Loaded(code, fd) && events[1] == VerifyDone(true);
    }
  }

  /** Stretches of a log that do not begin with a verdict can be looked at one by one. */
  lemma CandidSplits(log: seq<Event>, events: seq<Event>)
    requires events != [] ==> !events[0].VerifyDone?
    ensures Candid(log + events) <==> Candid(log) && Candid(events)
  {
    var all := log + events;
    assert forall k | 0 <= k < |log| :: all[k] == log[k];
    assert forall k | 0 <= k < |events| :: all[|log| + k] == events[k];
    if Candid(all) {
      forall k | 0 <= k < |events| && events[k] == VerifyDone(true)
        ensures k > 0 && events[k - 1].Loaded? && events[k - 1].fd >= 0
      {
        assert all[|log| + k] == VerifyDone(true);
      }
    }
  }

  lemma RefusalSplits(log: seq<Event>, events: seq<Event>)
    ensures NoneRefused(log + events) <==> NoneRefused(log) && NoneRefused(events)
  {
    var all := log + events;
    assert forall k | 0 <= k < |log| :: all[k] == log[k];
    assert forall k | 0 <= k < |events| :: all[|log| + k] == events[k];
  }

  lemma NewMapCandour(log: seq<Event>, oldFd: int, newFd: int)
    requires CandidIfNoneRefused(log)
    ensures CandidIfNoneRefused(log + [Protocol.Closed(oldFd), MapCreated(newFd)])
  {
    CandidSplits(log, [Protocol.Closed(oldFd), MapCreated(newFd)]);
    RefusalSplits(log, [Protocol.Closed(oldFd), MapCreated(newFd)]);
  }

  // ---------------------------------------------------------------- what is judged

  ghost predicate EncodesPointer(code: seq<Byte>, ins: seq<Instruction>, fd: int) {
    IsI32(fd) && Generatable(ins, fd) && AllEncodable(ins) && code == Encode(ins, |ins|)
  }

  /** The bytes of a program that the strategy may generate for the map. */
  ghost predicate PointerCode(code: seq<Byte>, fd: int) {
    exists ins: seq<Instruction> :: EncodesPointer(code, ins, fd)
  }

  /** The verdict at k is what the map read just before says about the program loaded, approved, run and closed before that. */
  ghost predicate JudgedAt(log: seq<Event>, k: nat)
    requires k < |log| && log[k].ExecuteDone?
  {
    && k >= 5 && log[k - 5].Loaded? && log[k - 4] == VerifyDone(true) && log[k - 3].Ran? && log[k - 2].Closed? && log[k - 1].MapRead?
    && PointerCode(log[k - 5].code, log[k - 1].fd) && PointerVerdict(log[k - 1].elements) == Some(log[k].ok)
  }

  /** Holds of every history of the strategy, lawful or not. */
  ghost predicate PointerLog(log: seq<Event>) {
    forall k | 0 <= k < |log| && log[k].ExecuteDone? :: JudgedAt(log, k)
  }

  lemma RoundIsJudged(log: seq<Event>, o: Outcome, code: seq<Byte>, fd: int, mapFd: int, reply: Option<seq<nat>>, ok: bool)
    requires PointerLog(log) && PointerCode(code, mapFd)
    requires o.Continue? && fd >= 0 ==> PointerVerdict(reply) == Some(ok)
    ensures PointerLog(log + ApprovingEvents(o, code, fd, mapFd, reply, ok))
  {
    hide PointerCode, PointerVerdict;
    var events := ApprovingEvents(o, code, fd, mapFd, reply, ok);
    var all, n := log + events, |log|;
    forall k | 0 <= k < |all| && all[k].ExecuteDone?
      ensures JudgedAt(all, k)
    {
      if k < n {
        assert JudgedAt(log, k);
      } else {
        assert all[k] == events[k - n];
        assert k - n == 5 && all[n] == events[0] && all[n + 1] == events[1] && all[n + 2] == events[2];
        assert all[n + 3] == events[3] && all[n + 4] == events[4];
      }
    }
  }

  lemma NewMapIsJudged(log: seq<Event>, oldFd: int, newFd: int)
    requires PointerLog(log)
    ensures PointerLog(log + [Protocol.Closed(oldFd), MapCreated(newFd)])
  {
    hide PointerCode, PointerVerdict;
    var all := log + [Protocol.Closed(oldFd), MapCreated(newFd)];
    forall k | 0 <= k < |all| && all[k].ExecuteDone?
      ensures JudgedAt(all, k)
    {
      assert JudgedAt(log, k);
    }
  }

  /** What became of a round's program. */
  datatype PointerCourse = PointerCourse(fd: int, reply: Option<seq<nat>>, ok: bool)

  class PointerControl {
    const strat: PointerArithmetic
    const ffi: FFI
    const rng: Rng

    constructor (strat: PointerArithmetic, ffi: FFI, rng: Rng)
      ensures this.strat == strat && this.ffi == ffi && this.rng == rng
    {
      this.strat, this.ffi, this.rng := strat, ffi, rng;
    }

    /** The history is lawful, and leads here. */
    ghost predicate Holding(o: Ownership)
      reads ffi
    {
      ffi.Valid() && Replay(ffi.log) == o
    }

    /** Lawful, with no program held and the map that the strategy names. */
    ghost predicate Tidy()
      reads ffi, strat`mapFd
    {
      ffi.Valid() && Replay(ffi.log).prog < 0 && Replay(ffi.log).mapFd == strat.mapFd
    }

    /** When it is tidy, the map is the only descriptor the fuzzer has on top of those it started with. */
    lemma OnlyTheMapIsOpen()
      requires Tidy()
      ensures ffi.open == ffi.inherited + if strat.mapFd >= 0 then {strat.mapFd} else {}
      ensures Opens(ffi.log) == Closes(ffi.log) + if strat.mapFd >= 0 then 1 else 0
    {
      DescriptorsBalance(ffi.log);
    }

    method Note(e: Event, ghost o: Ownership)
      requires e.VerifyDone? || e.ExecuteDone?
      modifies ffi`log
      ensures ffi.log == old(ffi.log) + [e] && (old(Holding(o)) && Legal(o, e) ==> Holding(After(o, e)))
    {
      hide FFI.Valid, Legal, Replay;
      ReplayExtends(ffi.log, e);
      ffi.Record(e);
    }

    method Run(fd: int, ghost o: Ownership) returns (ok: bool)
      modifies ffi`log, ffi`calls
      ensures ffi.log == old(ffi.log) + [Ran(fd)] && ffi.calls == old(ffi.calls) + 1 && ok == ffi.script(old(ffi.calls)).ok
      ensures old(Holding(o)) && Legal(o, Ran(fd)) ==> Holding(After(o, Ran(fd)))
    {
      hide FFI.Valid, Legal, Replay;
      ReplayExtends(ffi.log, Ran(fd));
      ok := ffi.RunEbpfProgram(fd);
    }

    method ReadMap(ghost o: Ownership) returns (reply: Option<seq<nat>>)
      modifies ffi`log, ffi`calls
      ensures ffi.log == old(ffi.log) + [MapRead(strat.mapFd, reply)] && ffi.calls == old(ffi.calls) + 1
      ensures reply == ffi.script(old(ffi.calls)).reply
      ensures old(Holding(o)) && o.stage == Released && strat.mapFd == o.mapFd >= 0 ==> Holding(After(o, MapRead(strat.mapFd, reply)))
    {
      hide FFI.Valid, Replay;
      ghost var log := ffi.log;
      reply := ffi.GetMapElements(strat.mapFd);
      ReplayExtends(log, MapRead(strat.mapFd, reply));
    }

    method Close(fd: int, ghost o: Ownership)
      modifies ffi`log, ffi`open
      ensures ffi.log == old(ffi.log) + [Protocol.Closed(fd)]
      ensures old(Holding(o)) && Legal(o, Protocol.Closed(fd)) ==> Holding(After(o, Protocol.Closed(fd)))
    {
      hide FFI.Valid, Legal, Replay;
      ReplayExtends(ffi.log, Protocol.Closed(fd));
      ffi.CloseFD(fd);
    }

    method Validate(code: seq<Byte>, ghost m: int) returns (r: Option<ValidationResult>)
      requires code != []
      modifies ffi
      ensures var a := ffi.script(old(ffi.calls)); r == if a.ok then Some(Validation(old(ffi.open), a)) else None
      ensures ffi.calls == old(ffi.calls) + 1
      ensures r.None? ==> ffi.log == old(ffi.log) && (old(Holding(Ownership(m, -1, Idle))) ==> Holding(Ownership(m, -1, Idle)))
      ensures r.Some? ==> ffi.log == old(ffi.log) + [Loaded(code, r.value.programFd)] && r.value.programFd >= -1
      ensures r.Some? && old(Holding(Ownership(m, -1, Idle))) && m >= 0 && CodeNames(code, m) ==>
                Holding(Ownership(m, r.value.programFd, Judging))
    {
      hide Replay, CodeNames, Lawful;
      ghost var log := ffi.log;
      r := ffi.ValidateEbpfProgram(code);
      if r.Some? {
        ReplayExtends(log, Loaded(code, r.value.programFd));
      }
    }

    /** `runEbpf` over this strategy. */
    method RunEbpf(prog: seq<Instruction>) returns (o: Outcome, ghost fd: int, ghost reply: Option<seq<nat>>, ghost ok: bool)
      requires strat.mapFd >= 0 && IsI32(strat.mapFd) && Generatable(prog, strat.mapFd)
      modifies ffi, strat`validProgramCount
      ensures ApprovingDecided(o, fd, reply, ok, PointerVerdict, ffi.script, old(ffi.calls), old(ffi.open)) && ffi.calls == old(ffi.calls) + ApprovingCalls(o, fd)
      ensures strat.validProgramCount == old(strat.validProgramCount) + if !o.ValidationError? && fd >= 0 then 1 else 0
      ensures AllEncodable(prog)
      ensures ffi.log == old(ffi.log) + ApprovingEvents(o, Encode(prog, |prog|), fd, strat.mapFd, reply, ok)
      ensures old(strat.AtRest(ffi)) ==> Tidy() && (!o.RunError? && !o.IndexPanic? ==> strat.AtRest(ffi))
    {
      hide Generatable, Encode, AllEncodable, CodeNames, FFI.Valid, Replay, Legal, RunDecided;
      fd, reply, ok := -1, None, false;
      ghost var m := strat.mapFd;
      PointerNamesMap(prog, m);
      SingleFunction(prog);
      var encoded := EncodeInstructions([Func(prog, [])]);
      if encoded.UnknownOpcode? {
        assert false;
      }
      var result := Validate(encoded.value.0, m);
      if result.None? {
        return ValidationError, fd, reply, ok;
      }
      var vr := result.value;
      fd := vr.programFd;
      o, reply, ok := Judge(vr, Encode(prog, |prog|), old(ffi.log));
    }

    method Judge(vr: ValidationResult, ghost code: seq<Byte>, ghost before: seq<Event>) returns (o: Outcome, ghost reply: Option<seq<nat>>, ghost ok: bool)
      requires strat.mapFd >= 0 && ffi.log == before + [Loaded(code, vr.programFd)]
      modifies ffi, strat`validProgramCount
      ensures if vr.programFd < 0 then o == Continue && ffi.calls == old(ffi.calls)
              else RunDecided(o, reply, ok, PointerVerdict, ffi.script, old(ffi.calls)) && ffi.calls == old(ffi.calls) + RunCalls(o)
      ensures o.Continue? || o.RunError? || o.IndexPanic?
      ensures strat.validProgramCount == old(strat.validProgramCount) + if vr.programFd >= 0 then 1 else 0
      ensures ffi.log == before + ApprovingEvents(o, code, vr.programFd, strat.mapFd, reply, ok)
      ensures old(Holding(Ownership(strat.mapFd, vr.programFd, Judging))) ==> Tidy() && (o.Continue? ==> strat.AtRest(ffi))
    {
      hide CodeNames, FFI.Valid, Replay, RunDecided;
      ghost var m, fd := strat.mapFd, vr.programFd;
      reply, ok := None, false;
      var proceed := strat.OnVerifyDone(vr);
      Note(VerifyDone(proceed), Ownership(m, fd, Judging));
      if !proceed || !vr.IsValid() {
        Close(vr.programFd, Ownership(m, fd, Judged(true)));
        return Continue, reply, ok;
      }
      ghost var log := ffi.log;
      o, reply, ok := Execute(vr.programFd);
      assert log == before + [Loaded(code, fd), VerifyDone(true)];
    }

    method Execute(fd: int) returns (o: Outcome, ghost reply: Option<seq<nat>>, ghost ok: bool)
      requires strat.mapFd >= 0 && fd >= 0
      modifies ffi
      ensures RunDecided(o, reply, ok, PointerVerdict, ffi.script, old(ffi.calls)) && ffi.calls == old(ffi.calls) + RunCalls(o)
      ensures o.Continue? || o.RunError? || o.IndexPanic?
      ensures ffi.log == old(ffi.log) + ExecuteEvents(o, fd, strat.mapFd, reply, ok)
      ensures old(Holding(Ownership(strat.mapFd, fd, Judged(true)))) ==> Tidy() && (o.Continue? ==> strat.AtRest(ffi))
    {
      hide CodeNames, FFI.Valid, Replay, Lawful, PointerVerdict;
      ghost var m := strat.mapFd;
      reply, ok := None, false;
      var ran := Run(fd, Ownership(m, fd, Judged(true)));
      Close(fd, Ownership(m, fd, Executed));
      if !ran {
        return RunError, reply, ok;
      }
      var elements := ReadMap(Ownership(m, -1, Released));
      reply := elements;
      var verdict := strat.OnExecuteDone(elements);
      if verdict.None? {
        return IndexPanic, reply, ok;
      }
      ok := verdict.value;
      Note(ExecuteDone(verdict.value), Ownership(m, -1, Inspected));
      o := Continue;
    }

    /** What a round did to the history, given the program it generated and what became of it. */
    ghost predicate RoundDid(o: Outcome, g: Generated, course: PointerCourse, log: seq<Event>, field: int, open: set<int>, calls: nat)
      reads ffi, rng, strat`mapFd
    {
      var trade := log + [Protocol.Closed(field), MapCreated(strat.mapFd)];
      match g
      case NoDraws => o == OutOfDraws && rng.tape == [] && (ffi.log == trade || (ffi.log == log && strat.mapFd == field))
      case MapCreationFailed => o == GenerateError && ffi.log == trade && strat.mapFd == Granted(open - {field}, ffi.script(calls).fd) == -1
      case Program(ins) =>
        && ffi.log == trade + ApprovingEvents(o, if AllEncodable(ins) then Encode(ins, |ins|) else [], course.fd, strat.mapFd, course.reply, course.ok)
        && strat.mapFd == Granted(open - {field}, ffi.script(calls).fd) >= 0 && IsI32(strat.mapFd) && Generatable(ins, strat.mapFd) && AllEncodable(ins)
        && ApprovingDecided(o, course.fd, course.reply, course.ok, PointerVerdict, ffi.script, calls + 1, open - {field} + {strat.mapFd})
        && ffi.calls == calls + 1 + ApprovingCalls(o, course.fd)
    }

    /** One turn of the loop: the program that was generated is submitted, and meets the kernel's answers. */
    method Round() returns (o: Outcome, ghost g: Generated, ghost course: PointerCourse)
      modifies strat, ffi, rng
      ensures strat.isFinished == old(strat.isFinished) && strat.programCount == old(strat.programCount) + 1
      ensures RoundDid(o, g, course, old(ffi.log), old(strat.mapFd), old(ffi.open), old(ffi.calls))
      ensures old(strat.AtRest(ffi)) ==> Tidy() && (!o.RunError? && !o.IndexPanic? ==> strat.AtRest(ffi))
    {
      hide Generatable, Encode, AllEncodable, ApprovingEvents, ApprovingDecided, ApprovingCalls, FFI.Valid, Replay, BodyFrom, ConstantsFrom, PointerEnds;
      course := PointerCourse(0, None, false);
      ghost var c := ConstantsFrom(rng.tape, 10);
      var generated := strat.GenerateProgram(ffi, rng);
      g := generated;
      if c.Some? && BodyFrom(c.value.1).Some? {
        EndsGeneratable(g, old(rng.tape), strat.mapFd, rng.tape);
      }
      match generated
      case NoDraws => o := OutOfDraws;
      case MapCreationFailed => o := GenerateError;
      case Program(ins) =>
        ghost var fd, reply, ok;
        o, fd, reply, ok := RunEbpf(ins);
        course := PointerCourse(fd, reply, ok);
    }

    /** One turn, in terms of the run. */
    method CountedRound() returns (o: Outcome)
      modifies strat, ffi, rng
      ensures !o.Done? && !o.OutOfRounds? && strat.isFinished == old(strat.isFinished) && strat.programCount == old(strat.programCount) + 1
      ensures ffi.log == old(ffi.log) || old(ffi.log) + [Protocol.Closed(old(strat.mapFd))] <= ffi.log
      ensures ffi.log == old(ffi.log) ==> strat.mapFd == old(strat.mapFd)
      ensures old(strat.AtRest(ffi)) ==> Tidy() && (!o.RunError? && !o.IndexPanic? ==> strat.AtRest(ffi))
      ensures CandidIfNoneRefused(old(ffi.log)) ==> CandidIfNoneRefused(ffi.log)
      ensures PointerLog(old(ffi.log)) ==> PointerLog(ffi.log)
      ensures Loads(ffi.log) == Loads(old(ffi.log)) + (if NeverLoaded(o) then 0 else 1) && Accounted(o)
    {
      hide Generatable, Encode, AllEncodable, CandidIfNoneRefused, PointerLog, PointerCode, PointerVerdict, ApprovingEvents, FFI.Valid, Replay;
      hide ApprovingDecided, ApprovingCalls, Loads;
      ghost var log, fd, calls := ffi.log, strat.mapFd, ffi.calls;
      ghost var g, course;
      o, g, course := Round();
      TradeLoads(log, fd, strat.mapFd);
      if CandidIfNoneRefused(log) {
        NewMapCandour(log, fd, strat.mapFd);
      }
      if PointerLog(log) {
        NewMapIsJudged(log, fd, strat.mapFd);
      }
      if g.Program? {
        ghost var before := log + [Protocol.Closed(fd), MapCreated(strat.mapFd)];
        ghost var code := Encode(g.ins, |g.ins|);
        ApprovingCases(o, course.fd, course.reply, course.ok, PointerVerdict, ffi.script, calls + 1, old(ffi.open) - {fd} + {strat.mapFd});
        ApprovingLoads(before, o, code, course.fd, strat.mapFd, course.reply, course.ok);
        EventsAppend(before, o, code, course.fd, strat.mapFd, course.reply, course.ok);
        PointerCodeOf(g.ins, strat.mapFd);
        if CandidIfNoneRefused(before) {
          RoundCandour(before, o, code, course.fd, strat.mapFd, course.reply, course.ok);
        }
        if PointerLog(before) {
          RoundIsJudged(before, o, code, course.fd, strat.mapFd, course.reply, course.ok);
        }
      }
    }

    /** Why a run can stop: no draws, no map, or the kernel's last answer. */
    ghost predicate Accounted(o: Outcome)
      reads ffi, rng
    {
      && (o.OutOfDraws? ==> rng.tape == [])
      && (o.GenerateError? ==> ffi.log != [] && ffi.log[|ffi.log| - 1] == MapCreated(-1))
      && ApprovingBlamed(o, PointerVerdict, ffi.script, ffi.calls)
    }

    /**
     * `RunFuzzer` over this strategy, for any initial descriptor, kernel, draws and number of rounds. The history stays
     * lawful exactly if nothing was called at all or the descriptor in the strategy's field was the fuzzer's own at the
     * start; then no program descriptor is ever left. Its approvals are candid exactly if no program was refused. Every
     * round generates a program, and submits it unless it ends the run with an error of the draws or the kernel.
     */
    method RunFuzzer(rounds: nat) returns (o: Outcome)
      requires ffi.Valid() && Replay(ffi.log).prog == -1 && Replay(ffi.log).stage == Idle
      modifies strat, ffi, rng
      ensures !o.Continue? && strat.isFinished == old(strat.isFinished) && (o.Done? ==> strat.isFinished)
      ensures old(ffi.log) <= ffi.log
      ensures Lawful(ffi.log) <==> ffi.log == old(ffi.log) || old(strat.mapFd == Replay(ffi.log).mapFd)
      ensures old(strat.mapFd == Replay(ffi.log).mapFd) ==> Tidy()
      ensures CandidIfNoneRefused(old(ffi.log)) ==> CandidIfNoneRefused(ffi.log)
      ensures PointerLog(old(ffi.log)) ==> PointerLog(ffi.log)
      ensures Counted(o, rounds, strat.programCount - old(strat.programCount), Loads(ffi.log) - Loads(old(ffi.log))) && Accounted(o)
    {
      hide FFI.Valid, Replay, Lawful, CandidIfNoneRefused, PointerLog, Loads, Accounted;
      ghost var log0, fd0 := ffi.log, strat.mapFd;
      ghost var own := strat.AtRest(ffi);
      ValidIsLawful(ffi);
      var i := 0;
      o := OutOfRounds;
      while i < rounds && !strat.isFinished
        invariant strat.isFinished == old(strat.isFinished)
        invariant 0 <= i <= rounds && strat.programCount == old(strat.programCount) + i && Loads(ffi.log) == Loads(log0) + i
        invariant if ffi.log == log0 then strat.mapFd == fd0 else log0 + [Protocol.Closed(fd0)] <= ffi.log
        invariant own ==> strat.AtRest(ffi)
        invariant CandidIfNoneRefused(log0) ==> CandidIfNoneRefused(ffi.log)
        invariant PointerLog(log0) ==> PointerLog(ffi.log)
        invariant o == OutOfRounds
      {
        var r := CountedRound();
        if !r.Continue? {
          FirstCloseDecides(log0, fd0, ffi.log);
          if own {
            ValidIsLawful(ffi);
          }
          return r;
        }
        i := i + 1;
      }
      FirstCloseDecides(log0, fd0, ffi.log);
      if own {
        ValidIsLawful(ffi);
      }
      o := if strat.isFinished then Done else OutOfRounds;
      NothingToBlame(o);
    }

    lemma NothingToBlame(o: Outcome)
      requires o.Done? || o.OutOfRounds?
      ensures Accounted(o)
    {
    }
  }

  lemma PointerCodeOf(ins: seq<Instruction>, fd: int)
    requires Generatable(ins, fd) && IsI32(fd) && AllEncodable(ins)
    ensures PointerCode(Encode(ins, |ins|), fd)
  {
    assert EncodesPointer(Encode(ins, |ins|), ins, fd);
  }

  lemma ValidIsLawful(ffi: FFI)
    requires ffi.Valid()
    ensures Lawful(ffi.log)
  {
  }

  /** A first close of something that is not the map can never be made good. */
  lemma FirstCloseDecides(before: seq<Event>, fd: int, log: seq<Event>)
    requires Replay(before).stage == Idle
    ensures before + [Protocol.Closed(fd)] <= log && Lawful(log) ==> fd == Replay(before).mapFd
  {
    var all := before + [Protocol.Closed(fd)];
    if all <= log && Lawful(log) {
      assert log == all + log[|all|..];
      LawfulPrefix(all, log[|all|..]);
      assert all[..|before|] == before && Legal(Replay(all[..|before|]), all[|before|]);
    }
  }

  // ---------------------------------------------------------------- the verdicts

  /** What submitted bytes decode to. */
  lemma PointerCodeParts(code: seq<Byte>, fd: int) returns (c: seq<int>, body: seq<Instruction>, reg: nat)
    requires PointerCode(code, fd)
    ensures HeaderConstants(c) && CountedBody(body) && reg <= 9
    ensures var p := Header(c) + body;
            var q := p + TwoElementFooter(reg, fd);
            && AllEncodable(q) && code == Encode(q, |q|) && Decode(code, 0) == Ok(q)
            && |q| - 21 == |p| && q[|p|].src == reg
  {
    hide Header, CountedBody, TwoElementFooter, HeaderConstants, Encode, Decode, AllEncodable, AllWellFormed;
    var ins :| EncodesPointer(code, ins, fd);
    PointerNamesMap(ins, fd);
    ProgramRoundTrip(ins);
    c, body, reg :| HeaderConstants(c) && CountedBody(body) && reg <= 9 && ins == Header(c) + body + TwoElementFooter(reg, fd);
    FooterTests(reg, fd);
    assert ins[|Header(c) + body|] == TwoElementFooter(reg, fd)[0];
  }

  lemma FooterTests(reg: nat, fd: int)
    ensures TwoElementFooter(reg, fd)[0].src == reg
  {
  }

  /**
   * The verdict on submitted bytes: good exactly if they were not executed, or their footer saw one of the values that
   * the two elements do not show; a footer sees just one value.
   */
  lemma PointerVerdictIsExact(code: seq<Byte>, fd: int, run: PlatformRun, reply: seq<nat>) returns (x: Word)
    requires PointerCode(code, fd) && ReadsBack(run, code, fd, 2, reply)
    ensures PointerVerdict(Some(reply)) == Some(!run.executed || Undetected(I64(x)))
    ensures forall y: Word :: FooterSees(run, code, 21, y) <==> y == x
  {
    hide Header, CountedBody, TwoElementFooter, HeaderConstants, Encode, Decode, AllEncodable, SlotRun, SlotOf, LookupWorks, MapAt, Element;
    hide Undetected, PointerCode, FooterSees, ControlFlow.Closed, ControlFlow.AllSupported, I64;
    var c, body, reg := PointerCodeParts(code, fd);
    var p := Header(c) + body;
    var q := p + TwoElementFooter(reg, fd);
    assert Element(run.s0.mem, run.base, 0) == 0 && Element(run.s0.mem, run.base, 1) == 0;
    var k, s, t := PointerOracleIsExact(run.w, c, body, reg, fd, run.base, run.s0);
    x := Get(s, reg);
    if run.executed {
      var n: nat :| Leaves(run, code, 2, n, reply);
      HaltedOnce(run.w, code, n, k + 19, Running(0, run.s0));
    }
    PointerProgramIsClosed(c, body, reg, fd);
    assert ArrivesWith(run, code, SlotOf(q, |q| - 21), q[|q| - 21].src, k, x);
    FooterSeesOne(run, q, 21, k, x);
  }

  /** Every readable look at the map showed what the execution of the program before it, if there was one, left there. */
  ghost predicate PointerHonest(log: seq<Event>, runs: nat -> PlatformRun) {
    forall k | 5 <= k < |log| && log[k].ExecuteDone? && log[k - 1].MapRead? && log[k - 5].Loaded? && log[k - 1].elements.Some? ::
      ReadsBack(runs(k), log[k - 5].code, log[k - 1].fd, 2, log[k - 1].elements.value)
  }

  ghost predicate SeesDetectable(run: PlatformRun, code: seq<Byte>) {
    exists x: Word :: !Undetected(I64(x)) && FooterSees(run, code, 21, x)
  }

  /** The program judged at k was executed, its map was readable, and its footer saw a value that the two elements show. */
  ghost predicate Shown(log: seq<Event>, runs: nat -> PlatformRun, k: nat) {
    && 5 <= k < |log| && log[k].ExecuteDone? && log[k - 1].MapRead? && log[k - 5].Loaded?
    && log[k - 1].elements.Some? && runs(k).executed && SeesDetectable(runs(k), log[k - 5].code)
  }

  /** Every bad verdict of a run is about such a program, and every such program got one. */
  lemma PointerJudgedRight(log: seq<Event>, runs: nat -> PlatformRun, k: nat)
    requires PointerLog(log) && PointerHonest(log, runs) && k < |log| && log[k].ExecuteDone?
    ensures log[k] == ExecuteDone(false) <==> Shown(log, runs, k)
  {
    hide PointerCode, ReadsBack, FooterSees, Undetected, I64;
    assert JudgedAt(log, k);
    if log[k - 1].elements.Some? {
      var x := PointerVerdictIsExact(log[k - 5].code, log[k - 1].fd, runs(k), log[k - 1].elements.value);
      assert FooterSees(runs(k), log[k - 5].code, 21, x);
    }
  }

  ghost predicate AllJudgedRight(log: seq<Event>, runs: nat -> PlatformRun) {
    forall k: nat | k < |log| && log[k].ExecuteDone? :: log[k] == ExecuteDone(false) <==> Shown(log, runs, k)
  }

  /** From scratch, with a given number in the map field; the source's constructor leaves the zero that Go puts there. */
  method FuzzPointers(start: int, inherited: set<nat>, script: nat -> Answer, draws: seq<nat>, rounds: nat) returns (c: PointerControl, o: Outcome)
    ensures c.ffi.inherited == inherited && c.ffi.script == script && !o.Continue? && !o.Done?
    ensures Counted(o, rounds, c.strat.programCount, Loads(c.ffi.log)) && c.Accounted(o)
    ensures Lawful(c.ffi.log) <==> c.ffi.log == [] || start == -1
    ensures Candid(c.ffi.log) <==> NoneRefused(c.ffi.log)
    ensures start == -1 ==> c.ffi.open == inherited + if c.strat.mapFd >= 0 then {c.strat.mapFd} else {}
    ensures forall runs | PointerHonest(c.ffi.log, runs) :: AllJudgedRight(c.ffi.log, runs)
  {
    hide FFI.Valid, Lawful, PointerControl.Tidy, PointerControl.Accounted, JudgedAt, PointerHonest, Shown;
    var strat := new PointerArithmetic();
    strat.mapFd := start;
    var ffi := new FFI(inherited, script);
    var rng := new Rng(draws);
    c := new PointerControl(strat, ffi, rng);
    assert CandidIfNoneRefused([]) && PointerLog([]);
    o := c.RunFuzzer(rounds);
    if start == -1 {
      c.OnlyTheMapIsOpen();
    }
    ghost var log := c.ffi.log;
    forall runs | PointerHonest(log, runs)
      ensures AllJudgedRight(log, runs)
    {
      forall k: nat | k < |log| && log[k].ExecuteDone?
        ensures log[k] == ExecuteDone(false) <==> Shown(log, runs, k)
      {
        PointerJudgedRight(log, runs, k);
      }
    }
  }
}
