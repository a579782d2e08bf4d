/** The fuzzing loop over the loop strategy: which maps are open when programs that name them are submitted. */
module LoopRuns {
  import opened Words
  import opened Encoding
  import opened Instructions
  import opened Random
  import opened Protocol
  import opened KernelInterface
  import opened LoopStrategy
  import opened ControlUnit

  /** What one call does to the set of open descriptors. */
  function OpenNext(open: set<int>, e: Event): set<int> {
    if (e.MapCreated? || e.Loaded?) && e.fd >= 0 then open + {e.fd}
    else if e.Closed? then open - {e.fd}
    else open
  }

  /** Every descriptor that is open after a log, from those open before it. */
  function OpenAfter(start: set<int>, log: seq<Event>): set<int> {
    if log == [] then start else OpenNext(OpenAfter(start, log[..|log| - 1]), log[|log| - 1])
  }

  lemma OpenExtends(start: set<int>, log: seq<Event>, e: Event)
    ensures OpenAfter(start, log + [e]) == OpenNext(OpenAfter(start, log), e)
  {
    assert (log + [e])[..|log|] == log;
  }

  /** At k a program is submitted whose map, made two calls before, is not open any more. */
  ghost predicate LostMap(start: set<int>, log: seq<Event>, k: nat) {
    2 <= k < |log| && log[k].Loaded? && log[k - 2].MapCreated? && log[k - 2].fd >= 0 && log[k - 2].fd !in OpenAfter(start, log[..k])
  }

  ghost predicate NoneLost(start: set<int>, log: seq<Event>) {
    forall k: nat :: !LostMap(start, log, k)
  }

  lemma NoneLostExtends(start: set<int>, log: seq<Event>, e: Event)
    requires NoneLost(start, log)
    requires e.Loaded? && |log| >= 2 && log[|log| - 2].MapCreated? ==> log[|log| - 2].fd < 0 || log[|log| - 2].fd in OpenAfter(start, log)
    ensures NoneLost(start, log + [e])
  {
    hide OpenAfter;
    var all := log + [e];
    forall k: nat
      ensures !LostMap(start, all, k)
    {
      if k < |log| {
        assert !LostMap(start, log, k);
        assert all[..k] == log[..k];
      } else if k == |log| {
        assert all[..k] == log;
      }
    }
  }

  class LoopControl {
    const strat: LoopPointerArithmetic
    const ffi: FFI
    const rng: Rng
    ghost const start: set<int>

    constructor (strat: LoopPointerArithmetic, ffi: FFI, rng: Rng)
      requires ffi.log == []
      ensures this.strat == strat && this.ffi == ffi && this.rng == rng && start == ffi.open && Tracks()
      ensures NoneLost(start, ffi.log)
    {
      this.strat, this.ffi, this.rng, start := strat, ffi, rng, ffi.open;
    }

    /** The log accounts for what is open. */
    ghost predicate Tracks()
      reads ffi
    {
      ffi.open == OpenAfter(start, ffi.log)
    }

    /** No map was lost so far, and the field does not threaten the next one. */
    ghost predicate Safe()
      reads ffi, strat`mapFd
    {
      NoneLost(start, ffi.log) && strat.NoStrayField(ffi)
    }

    /** The program for a new map; with a safe field the map is open when it returns. */
    method Generate() returns (r: Option<LoopProgram>)
      requires Tracks()
      modifies strat, ffi, rng
      ensures Tracks() && (old(Safe()) ==> Safe()) && strat.isFinished == old(strat.isFinished) && strat.programCount == old(strat.programCount) + 1
      ensures strat.mapFd == Granted(old(ffi.open), ffi.script(old(ffi.calls)).fd) && ffi.calls == old(ffi.calls) + 1
      ensures ffi.log == old(ffi.log) + [MapCreated(strat.mapFd), Closed(old(strat.mapFd))]
      ensures ffi.open == old(ffi.open) + (if strat.mapFd >= 0 then {strat.mapFd} else {}) - {old(strat.mapFd)}
      ensures Made(r, old(rng.tape), rng.tape)
    {
      hide OpenAfter, NoneLost, LoopPartsFrom, Functions, FFI.Valid, Granted;
      ghost var log, fd := ffi.log, strat.mapFd;
      r := strat.GenerateProgram(ffi, rng);
      OpenExtends(start, log, MapCreated(strat.mapFd));
      OpenExtends(start, log + [MapCreated(strat.mapFd)], Closed(fd));
      assert ffi.log == log + [MapCreated(strat.mapFd)] + [Closed(fd)];
      if NoneLost(start, log) {
        NoneLostExtends(start, log, MapCreated(strat.mapFd));
        NoneLostExtends(start, log + [MapCreated(strat.mapFd)], Closed(fd));
      }
    }

    /** The functions that the draws decide on, for the map that was just made. */
    ghost predicate Made(r: Option<LoopProgram>, before: seq<nat>, after: seq<nat>)
      reads strat`mapFd
    {
      match LoopPartsFrom(before)
      case None => r.None? && after == []
      case Some((parts, rest)) => r.Some? && r.value.functions == Functions(strat.mapFd, parts.c, parts.body) && after == rest
    }

    /** A call that opens and closes nothing keeps the account. */
    lemma QuietCall(log: seq<Event>, e: Event)
      requires e.VerifyDone? || e.Ran? || e.MapRead? || e.ExecuteDone?
      ensures OpenAfter(start, log + [e]) == OpenAfter(start, log) && (NoneLost(start, log) ==> NoneLost(start, log + [e]))
    {
      hide NoneLost;
      OpenExtends(start, log, e);
      if NoneLost(start, log) {
        NoneLostExtends(start, log, e);
      }
    }

    method Note(e: Event)
      requires Tracks() && (e.VerifyDone? || e.ExecuteDone?)
      modifies ffi`log
      ensures Tracks() && (old(Safe()) ==> Safe()) && ffi.log == old(ffi.log) + [e]
    {
      hide OpenAfter, NoneLost, FFI.Valid;
      QuietCall(ffi.log, e);
      ffi.Record(e);
    }

    method Run(fd: int) returns (ok: bool)
      requires Tracks()
      modifies ffi`log, ffi`calls
      ensures Tracks() && (old(Safe()) ==> Safe())
      ensures ffi.log == old(ffi.log) + [Ran(fd)] && ffi.calls == old(ffi.calls) + 1 && ok == ffi.script(old(ffi.calls)).ok
    {
      hide OpenAfter, NoneLost, FFI.Valid;
      QuietCall(ffi.log, Ran(fd));
      ok := ffi.RunEbpfProgram(fd);
    }

    method ReadMap() returns (reply: Option<seq<nat>>)
      requires Tracks()
      modifies ffi`log, ffi`calls
      ensures Tracks() && (old(Safe()) ==> Safe()) && ffi.log == old(ffi.log) + [MapRead(strat.mapFd, reply)]
      ensures ffi.calls == old(ffi.calls) + 1 && reply == ffi.script(old(ffi.calls)).reply
    {
      hide OpenAfter, NoneLost, FFI.Valid;
      ghost var log := ffi.log;
      reply := ffi.GetMapElements(strat.mapFd);
      QuietCall(log, MapRead(strat.mapFd, reply));
    }

    method Close(fd: int)
      requires Tracks()
      modifies ffi`log, ffi`open
      ensures Tracks() && (old(Safe()) && (fd < 0 || fd != strat.mapFd) ==> Safe())
      ensures ffi.log == old(ffi.log) + [Closed(fd)] && ffi.open == old(ffi.open) - {fd}
    {
      hide OpenAfter, NoneLost, FFI.Valid;
      OpenExtends(start, ffi.log, Closed(fd));
      if NoneLost(start, ffi.log) {
        NoneLostExtends(start, ffi.log, Closed(fd));
      }
      ffi.CloseFD(fd);
    }

    method Validate(code: seq<Byte>) returns (r: Option<ValidationResult>)
      requires Tracks() && code != [] && |ffi.log| >= 2 && ffi.log[|ffi.log| - 2] == MapCreated(strat.mapFd)
      modifies ffi
      ensures Tracks() && (old(Safe()) ==> Safe())
      ensures var a := ffi.script(old(ffi.calls)); r == if a.ok then Some(Validation(old(ffi.open), a)) else None
      ensures ffi.calls == old(ffi.calls) + 1
      ensures ffi.log == old(ffi.log) + if r.Some? then [Loaded(code, r.value.programFd)] else []
      ensures r.Some? && old(Safe()) && r.value.programFd >= 0 ==> r.value.programFd != strat.mapFd
    {
      hide OpenAfter, NoneLost, FFI.Valid, CodeNames;
      ghost var log := ffi.log;
      r := ffi.ValidateEbpfProgram(code);
      if r.Some? {
        OpenExtends(start, log, Loaded(code, r.value.programFd));
        if NoneLost(start, log) && old(strat.NoStrayField(ffi)) {
          NoneLostExtends(start, log, Loaded(code, r.value.programFd));
        }
      }
    }

    /** `runEbpf` over this strategy; the result of a failed creation is submitted as well. */
    method RunEbpf(prog: LoopProgram, ghost parts: Parts) returns (o: Outcome, ghost fd: int, ghost reply: Option<seq<nat>>, ghost ok: bool)
      requires Tracks() && |ffi.log| >= 2 && ffi.log[|ffi.log| - 2] == MapCreated(strat.mapFd)
      requires LoopParts(parts.c, parts.body) && prog.functions == Functions(strat.mapFd, parts.c, parts.body)
      modifies ffi, strat`validProgramCount
      ensures Tracks() && (old(Safe()) ==> Safe())
      ensures ApprovingDecided(o, fd, reply, ok, LoopVerdict, ffi.script, old(ffi.calls), old(ffi.open))
      ensures ffi.calls == old(ffi.calls) + ApprovingCalls(o, fd)
      ensures strat.validProgramCount == old(strat.validProgramCount) + if !o.ValidationError? && fd >= 0 then 1 else 0
      ensures ffi.log == old(ffi.log) + ApprovingEvents(o, LoopCode(strat.mapFd, parts), fd, strat.mapFd, reply, ok)
    {
      hide Tracks, Safe, FFI.Valid, Encode, AllEncodable, Flatten, FuncInfoBytes, OpenAfter, NoneLost, LoopParts, Functions, RunDecided;
      fd, reply, ok := -1, None, false;
      LoopEncodes(strat.mapFd, parts);
      var encoded := EncodeInstructions(prog.functions);
      if encoded.UnknownOpcode? {
        assert false;
      }
      var result := Validate(encoded.value.0);
      if result.None? {
        return ValidationError, fd, reply, ok;
      }
      fd := result.value.programFd;
      o, reply, ok := Judge(result.value, LoopCode(strat.mapFd, parts), old(ffi.log));
    }

    method Judge(vr: ValidationResult, ghost code: seq<Byte>, ghost before: seq<Event>) returns (o: Outcome, ghost reply: Option<seq<nat>>, ghost ok: bool)
      requires Tracks() && ffi.log == before + [Loaded(code, vr.programFd)]
      modifies ffi, strat`validProgramCount
      ensures Tracks() && (old(Safe()) && (vr.programFd >= 0 ==> vr.programFd != strat.mapFd) ==> Safe())
      ensures if vr.programFd < 0 then o == Continue && ffi.calls == old(ffi.calls)
              else RunDecided(o, reply, ok, LoopVerdict, ffi.script, old(ffi.calls)) && ffi.calls == old(ffi.calls) + RunCalls(o)
      ensures o.Continue? || o.RunError? || o.IndexPanic?
      ensures strat.validProgramCount == old(strat.validProgramCount) + if vr.programFd >= 0 then 1 else 0
      ensures ffi.log == before + ApprovingEvents(o, code, vr.programFd, strat.mapFd, reply, ok)
    {
      hide Tracks, Safe, FFI.Valid, OpenAfter, NoneLost, RunDecided;
      reply, ok := None, false;
      var proceed := strat.OnVerifyDone(vr);
      Note(VerifyDone(proceed));
      if !proceed || !vr.IsValid() {
        Close(vr.programFd);
        return Continue, reply, ok;
      }
      ghost var log := ffi.log;
      o, reply, ok := Execute(vr.programFd);
      assert log == before + [Loaded(code, vr.programFd), VerifyDone(true)];
    }

    method Execute(fd: int) returns (o: Outcome, ghost reply: Option<seq<nat>>, ghost ok: bool)
      requires Tracks()
      modifies ffi
      ensures Tracks() && (old(Safe()) && fd != strat.mapFd ==> Safe())
      ensures RunDecided(o, reply, ok, LoopVerdict, ffi.script, old(ffi.calls)) && ffi.calls == old(ffi.calls) + RunCalls(o)
      ensures o.Continue? || o.RunError? || o.IndexPanic?
      ensures ffi.log == old(ffi.log) + ExecuteEvents(o, fd, strat.mapFd, reply, ok)
    {
      hide Tracks, Safe, FFI.Valid, OpenAfter, NoneLost;
      reply, ok := None, false;
      var ran := Run(fd);
      Close(fd);
      if !ran {
        return RunError, reply, ok;
      }
      var elements := ReadMap();
      reply := elements;
      var verdict := strat.OnExecuteDone(elements);
      if verdict.None? {
        return IndexPanic, reply, ok;
      }
      ok := verdict.value;
      Note(ExecuteDone(verdict.value));
      o := Continue;
    }

    /** What a round did to the history: the parts that the draws decide on are submitted for the new map, made or not. */
    ghost predicate RoundDid(o: Outcome, course: LoopCourse, log: seq<Event>, field: int, open: set<int>, calls: nat, tape: seq<nat>)
      reads ffi, rng, strat`mapFd
    {
      var trade := log + [MapCreated(strat.mapFd), Closed(field)];
      var held := open + (if strat.mapFd >= 0 then {strat.mapFd} else {}) - {field};
      strat.mapFd == Granted(open, ffi.script(calls).fd) &&
      match LoopPartsFrom(tape)
      case None => o == OutOfDraws && ffi.log == trade && rng.tape == []
      case Some((parts, rest)) =>
        && ffi.log == trade + ApprovingEvents(o, LoopCode(strat.mapFd, parts), course.fd, strat.mapFd, course.reply, course.ok)
        && ApprovingDecided(o, course.fd, course.reply, course.ok, LoopVerdict, ffi.script, calls + 1, held)
        && ffi.calls == calls + 1 + ApprovingCalls(o, course.fd) && rng.tape == rest
    }

    /** One turn of the loop. */
    method Round() returns (o: Outcome, ghost course: LoopCourse)
      requires Tracks()
      modifies strat, ffi, rng
      ensures Tracks() && (old(Safe()) ==> Safe()) && strat.isFinished == old(strat.isFinished) && strat.programCount == old(strat.programCount) + 1
      ensures RoundDid(o, course, old(ffi.log), old(strat.mapFd), old(ffi.open), old(ffi.calls), old(rng.tape))
    {
      hide Tracks, Safe, FFI.Valid, LoopPartsFrom, Functions, ApprovingDecided, ApprovingEvents, ApprovingCalls, Encode, OpenAfter, NoneLost, LoopParts;
      course := LoopCourse(0, None, false);
      var g := Generate();
      if g.None? {
        return OutOfDraws, course;
      }
      PartsAreFit(old(rng.tape));
      ghost var parts := LoopPartsFrom(old(rng.tape)).value.0;
      ghost var fd, reply, ok;
      o, fd, reply, ok := RunEbpf(g.value, parts);
      course := LoopCourse(fd, reply, ok);
    }

    /** One turn, in terms of the run. */
    method CountedRound() returns (o: Outcome)
      requires Tracks()
      modifies strat, ffi, rng
      ensures Tracks() && (old(Safe()) ==> Safe()) && strat.isFinished == old(strat.isFinished) && strat.programCount == old(strat.programCount) + 1
      ensures !o.Done? && !o.OutOfRounds? && !o.GenerateError? && old(ffi.log) <= ffi.log
      ensures Loads(ffi.log) == Loads(old(ffi.log)) + (if NeverLoaded(o) then 0 else 1) && Accounted(o)
    {
      hide Tracks, Safe, FFI.Valid, ApprovingDecided, ApprovingEvents, ApprovingCalls, Loads, OpenAfter, NoneLost, LoopPartsFrom, LoopCode, Granted;
      ghost var log, field, calls := ffi.log, strat.mapFd, ffi.calls;
      ghost var held;
      ghost var course;
      o, course := Round();
      held := old(ffi.open) + (if strat.mapFd >= 0 then {strat.mapFd} else {}) - {field};
      ghost var trade := log + [MapCreated(strat.mapFd), Closed(field)];
      LoadsAdd(log, [MapCreated(strat.mapFd), Closed(field)]);
      NoMoreLoads([MapCreated(strat.mapFd), Closed(field)]);
      if LoopPartsFrom(old(rng.tape)).Some? {
        ghost var code := LoopCode(strat.mapFd, LoopPartsFrom(old(rng.tape)).value.0);
        ApprovingCases(o, course.fd, course.reply, course.ok, LoopVerdict, ffi.script, calls + 1, held);
        ApprovingLoads(trade, o, code, course.fd, strat.mapFd, course.reply, course.ok);
        EventsAppend(trade, o, code, course.fd, strat.mapFd, course.reply, course.ok);
      }
    }

    /** Why a run can stop: no draws, or the kernel's last answer. */
    ghost predicate Accounted(o: Outcome)
      reads ffi, rng
    {
      (o.OutOfDraws? ==> rng.tape == []) && ApprovingBlamed(o, LoopVerdict, ffi.script, ffi.calls)
    }

    /**
     * `RunFuzzer` over this strategy, for any kernel, draws and number of rounds: if the field names no descriptor or an
     * open one at the start, no program is ever submitted without its map being open, and the field stays like that.
     * Every round generates a program, and submits it unless it ends the run with an error of the draws or the kernel.
     */
    method RunFuzzer(rounds: nat) returns (o: Outcome)
      requires Tracks()
      modifies strat, ffi, rng
      ensures Tracks() && (old(Safe()) ==> Safe()) && !o.Continue? && !o.GenerateError? && (o.Done? ==> strat.isFinished)
      ensures strat.isFinished == old(strat.isFinished) && old(ffi.log) <= ffi.log
      ensures Counted(o, rounds, strat.programCount - old(strat.programCount), Loads(ffi.log) - Loads(old(ffi.log))) && Accounted(o)
    {
      hide Tracks, Safe, FFI.Valid, Loads, Accounted;
      var i := 0;
      while i < rounds && !strat.isFinished
        invariant Tracks() && (old(Safe()) ==> Safe()) && strat.isFinished == old(strat.isFinished) && old(ffi.log) <= ffi.log
        invariant 0 <= i <= rounds && strat.programCount == old(strat.programCount) + i && Loads(ffi.log) == Loads(old(ffi.log)) + i
      {
        o := CountedRound();
        if !o.Continue? {
          return;
        }
        i := i + 1;
      }
      o := if strat.isFinished then Done else OutOfRounds;
      NothingToBlame(o);
    }

    lemma NothingToBlame(o: Outcome)
      requires o.Done? || o.OutOfRounds?
      ensures Accounted(o)
    {
    }
  }

  /** What became of a round's program. */
  datatype LoopCourse = LoopCourse(fd: int, reply: Option<seq<nat>>, ok: bool)

  /** The bytes of both functions. */
  function LoopCode(fd: int, parts: Parts): seq<Byte> {
    if |parts.c| == 9 then
      var q := MainFunction(fd) + LoopFunction(parts.c, parts.body);
      if forall i | 0 <= i < |q| :: Encodable(q[i]) then Encode(q, |q|) else []
    else []
  }

  /** They are never refused by the encoder. */
  lemma LoopEncodes(fd: int, parts: Parts)
    requires LoopParts(parts.c, parts.body)
    ensures var q := MainFunction(fd) + LoopFunction(parts.c, parts.body);
            && Flatten(Functions(fd, parts.c, parts.body), |Functions(fd, parts.c, parts.body)|) == q
            && AllEncodable(q) && LoopCode(fd, parts) == Encode(q, |q|) && LoopCode(fd, parts) != []
  {
    hide MainFunction, LoopFunction, Encode, Encodable, WellFormed;
    FunctionsAreSeparate(fd, parts.c, parts.body);
    var q := MainFunction(fd) + LoopFunction(parts.c, parts.body);
    TwoFunctions(Functions(fd, parts.c, parts.body)[0], Functions(fd, parts.c, parts.body)[1]);
    WellFormedEncodable(q);
    SlotOfMonotone(q, 0, |q|);
  }

  /** From scratch, with a given number in the field; the source's constructor leaves zero there. */
  method FuzzLoops(field: int, inherited: set<nat>, script: nat -> Answer, draws: seq<nat>, rounds: nat) returns (c: LoopControl, o: Outcome)
    ensures c.start == inherited && c.Tracks() && c.ffi.script == script && !o.Continue? && !o.Done?
    ensures Counted(o, rounds, c.strat.programCount, Loads(c.ffi.log)) && c.Accounted(o)
    ensures field < 0 || field in inherited ==> NoneLost(c.start, c.ffi.log) && c.strat.NoStrayField(c.ffi)
  {
    hide FFI.Valid, NoneLost, LoopControl.Tracks, LoopControl.Accounted;
    var strat := new LoopPointerArithmetic();
    strat.mapFd := field;
    var ffi := new FFI(inherited, script);
    NothingOpened(ffi);
    var rng := new Rng(draws);
    c := new LoopControl(strat, ffi, rng);
    o := c.RunFuzzer(rounds);
  }

  lemma NothingOpened(ffi: FFI)
    requires ffi.Valid() && ffi.log == []
    ensures ffi.open == ffi.inherited
  {
  }

  /** After some history the kernel answers n to the next creation, and the program that names it is submitted without it. */
  ghost predicate LosesWith(start: set<int>, before: seq<Event>, field: int, code: seq<Byte>, fd: int, n: nat) {
    && n !in OpenAfter(start, before)
    && LostMap(start, before + [MapCreated(n), Closed(field), Loaded(code, fd)], |before| + 2)
  }

  /** After any history, in the first round or later: some answer of the kernel loses the map exactly if the field is stray. */
  lemma LosesExactly(start: set<int>, before: seq<Event>, field: int, code: seq<Byte>, fd: int)
    ensures (exists n: nat :: LosesWith(start, before, field, code, fd, n)) <==> field >= 0 && field !in OpenAfter(start, before)
  {
    hide OpenAfter;
    forall n: nat
      ensures LosesWith(start, before, field, code, fd, n) <==> n !in OpenAfter(start, before) && n == field
    {
      var log := before + [MapCreated(n), Closed(field), Loaded(code, fd)];
      OpenExtends(start, before, MapCreated(n));
      OpenExtends(start, before + [MapCreated(n)], Closed(field));
      assert log[..|before| + 2] == before + [MapCreated(n)] + [Closed(field)];
    }
    if field >= 0 && field !in OpenAfter(start, before) {
      assert LosesWith(start, before, field, code, fd, field);
    }
  }
}
