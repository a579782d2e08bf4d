/** The control unit: the fuzzing loop over the coverage strategy. */
module ControlUnit {
  import opened Words
  import opened Instructions
  import opened Encoding
  import opened Random
  import opened ControlFlow
  import opened Machine
  import opened Mutations
  import opened Generators
  import opened CoveragePrograms
  import opened CoverageStrategy
  import opened Protocol
  import opened KernelInterface

  /** Bytes of a program that the strategy with constants v may emit for the map fd, with a body of the given length. */
  ghost predicate CoverageCode(code: seq<Byte>, v: seq<int>) {
    |v| == 9 && exists p: seq<Instruction>, reg: nat, fd: int :: EncodesCoverage(code, v, p, reg, fd)
  }

  ghost predicate EncodesCoverage(code: seq<Byte>, v: seq<int>, p: seq<Instruction>, reg: nat, fd: int)
    requires |v| == 9
  {
    var q := p + Footer(reg, fd);
    CoverageProgram(p, v) && reg <= 9 && AllEncodable(q) && code == Encode(q, |q|)
  }

  lemma SingleFunction(prog: seq<Instruction>)
    ensures Flatten([Func(prog, [])], 1) == prog
  {
    assert Flatten([Func(prog, [])], 0) == [];
  }

  /**
   * What the coverage strategy lets happen after a log: only coverage code is submitted, only what the verifier accepted
   * is approved, and a verdict says whether the map that was just read begins with the footer's constant.
   */
  ghost predicate FitsAfter(log: seq<Event>, e: Event, v: seq<int>) {
    match e
    case Loaded(code, _) => CoverageCode(code, v)
    case VerifyDone(proceed) => proceed ==> log != [] && log[|log| - 1].Loaded? && log[|log| - 1].fd >= 0
    case ExecuteDone(ok) => log != [] && log[|log| - 1].MapRead? && Verdict(log[|log| - 1].elements) == Some(ok)
    case _ => true
  }

  ghost predicate CoverageLog(log: seq<Event>, v: seq<int>) {
    forall k | 0 <= k < |log| :: FitsAfter(log[..k], log[k], v)
  }

  lemma CoverageLogExtends(log: seq<Event>, e: Event, v: seq<int>)
    requires CoverageLog(log, v) && FitsAfter(log, e, v)
    ensures CoverageLog(log + [e], v)
  {
    hide FitsAfter;
    var all := log + [e];
    forall k | 0 <= k < |all|
      ensures FitsAfter(all[..k], all[k], v)
    {
      if k < |log| {
        assert all[..k] == log[..k] && all[k] == log[k];
      } else {
        assert all[..k] == log;
      }
    }
  }

  lemma NewMapIsQuiet(log: seq<Event>, oldFd: int, newFd: int, v: seq<int>)
    requires CoverageLog(log, v)
    ensures CoverageLog(log + [Protocol.Closed(oldFd), MapCreated(newFd)], v)
  {
    hide CoverageLog;
    CoverageLogExtends(log, Protocol.Closed(oldFd), v);
    CoverageLogExtends(log + [Protocol.Closed(oldFd)], MapCreated(newFd), v);
    assert log + [Protocol.Closed(oldFd)] + [MapCreated(newFd)] == log + [Protocol.Closed(oldFd), MapCreated(newFd)];
  }

  /** The strategy approves only accepted programs. */
  lemma CoverageIsCandid(log: seq<Event>, v: seq<int>)
    requires CoverageLog(log, v)
    ensures Candid(log)
  {
    hide CoverageCode;
    forall k | 0 <= k < |log| && log[k] == VerifyDone(true)
      ensures k > 0 && log[k - 1].Loaded? && log[k - 1].fd >= 0
    {
      assert FitsAfter(log[..k], log[k], v);
    }
  }

  // ---------------------------------------------------------------- what is submitted

  lemma BodyWellFormed(body: seq<Instruction>, i: nat)
    requires GoodBody(body) && i < |body|
    ensures WellFormed(body[i]) && !IsWide(body[i])
  {
    assert CoveragePrograms.Drawn(body[i]);
    var m: nat :| CoveragePrograms.Generators.RandomInstruction(body[i], m);
    CoveragePrograms.Generators.RandomInstructionsAreNarrow(body[i], m);
  }

  /** A plain constant load is not a map load. */
  lemma HeadMapLoads(v: seq<int>, i: nat)
    requires |v| == 9 && 0 < i < HEAD_SIZE
    ensures WellFormed(DefaultProg(v)[i]) && !IsMapLoad(DefaultProg(v)[i])
  {
    hide WellFormed, Supported, IsJump;
    if i < 17 {
      HeadCodePlain(v, i);
      assert DefaultProg(v)[i] == HeadCode(v)[i];
    } else {
      StackInitPlain(63, i - 17);
      assert DefaultProg(v)[i] == StackInit(63)[i - 17];
    }
  }

  lemma FooterMapLoads(reg: nat, fd: int, i: nat)
    requires reg <= 9 && i < 13
    ensures WellFormed(Footer(reg, fd)[i]) && (IsMapLoad(Footer(reg, fd)[i]) ==> Footer(reg, fd)[i].imm == I32(fd))
  {
    hide WellFormed, Supported, IsJump;
    FooterPlain(reg, fd, i);
  }

  /** Whatever the length of the body, an emitted program is well formed, and both its map loads name the map its head names. */
  lemma EmittedNamesMap(p: seq<Instruction>, v: seq<int>, reg: nat, fd: int)
    requires |v| == 9 && CoverageProgram(p, v) && reg <= 9
    ensures AllWellFormed(p + Footer(reg, fd))
    ensures p[0].imm == I32(fd) ==> MapLoadsName(p + Footer(reg, fd), I32(fd))
  {
    hide WellFormed, DefaultProg, Footer, GoodBody, IsMapLoad, LdMapByFd;
    var q := p + Footer(reg, fd);
    forall i | 0 <= i < |q|
      ensures WellFormed(q[i]) && (p[0].imm == I32(fd) && IsMapLoad(q[i]) ==> q[i].imm == I32(fd))
    {
      if i == 0 {
        PatchKeepsCoverageProgram(p, fd, v);
        MapLoadIsPlain(R1, p[0].imm);
      } else if i < HEAD_SIZE {
        HeadMapLoads(v, i);
        assert q[i] == p[..HEAD_SIZE][i] == DefaultProg(v)[i];
      } else if i < |p| {
        BodyWellFormed(p[HEAD_SIZE..], i - HEAD_SIZE);
        NarrowIsNoMapLoad(p[i]);
        assert q[i] == p[HEAD_SIZE..][i - HEAD_SIZE];
      } else {
        FooterMapLoads(reg, fd, i - |p|);
        assert q[i] == Footer(reg, fd)[i - |p|];
      }
    }
  }

  lemma NarrowIsNoMapLoad(i: Instruction)
    ensures !IsWide(i) ==> !IsMapLoad(i)
  {
  }

  lemma EmittedCode(prog: seq<Instruction>, vs: seq<Instruction>, v: seq<int>, fd: int)
    requires |v| == 9 && IsI32(fd) && Emitted(prog, vs, v, fd)
    ensures AllEncodable(prog) && CodeNames(Encode(prog, |prog|), fd) && CoverageCode(Encode(prog, |prog|), v)
    ensures Encode(prog, |prog|) != []
  {
    hide CoverageProgram, Footer, Encode, Decode, MapLoadsName, AllWellFormed, AllEncodable, SlotOf;
    var reg: nat :| reg <= 9 && prog == vs + Footer(reg, fd);
    EmittedNamesMap(vs, v, reg, fd);
    ProgramRoundTrip(prog);
    assert EncodesCoverage(Encode(prog, |prog|), v, vs, reg, fd);
    EncodesSomething(prog);
  }

  lemma EncodesSomething(prog: seq<Instruction>)
    requires AllEncodable(prog) && prog != []
    ensures Encode(prog, |prog|) != []
  {
    SlotOfMonotone(prog, 0, |prog|);
  }

  /**
   * The closure theorem for everything a fuzzing run submits: as long as the body has at most 2^15 instructions, each
   * path through the submitted bytes moves forward from instruction start to instruction start, enters the footer at
   * its first instruction, and ends at an Exit within slot-count steps; every execution halts.
   */
  lemma SubmittedCodeIsClosed(code: seq<Byte>, v: seq<int>, p: seq<Instruction>, reg: nat, fd: int, path: seq<nat>, w: World, s: State)
    requires |v| == 9 && EncodesCoverage(code, v, p, reg, fd) && |p| - HEAD_SIZE <= 0x8000
    ensures var q := p + Footer(reg, fd);
            && (IsPath(code, path) ==>
                  && (forall k | 0 <= k < |path| :: IsStart(q, path[k]))
                  && (forall k | 0 <= k < |path| - 1 ::
                        path[k] < path[k + 1] && (path[k] < SlotOf(q, |p|) ==> path[k + 1] <= SlotOf(q, |p|)))
                  && 8 * |path| <= |code|
                  && (Successors(code, path[|path| - 1]) == {} <==>
                      exists e: nat :: e < |q| && IsExit(q[e]) && SlotOf(q, e) == path[|path| - 1]))
            && SlotRun(w, code, |code| / 8, Running(0, s)).Halted?
  {
    hide CoverageProgram, Footer, Encode, AllEncodable, ControlFlow.Closed, AllSupported, IsPath, Successors, IsStart, IsExit, SlotRun, SlotOf;
    var q := p + Footer(reg, fd);
    EmittedIsClosed(p, v, reg, fd);
    EveryRunHalts(w, q, |p|, s);
    if IsPath(code, path) {
      PathsAreClosed(q, |p|, path);
    }
  }

  // ---------------------------------------------------------------- the loop

  datatype Outcome = Continue | Done | OutOfRounds | OutOfDraws | GenerateError | EncodeError | ValidationError | RunError | IndexPanic

  /** What one round adds to the log once its program is generated. */
  function RoundEvents(o: Outcome, approved: bool, code: seq<Byte>, fd: int, mapFd: int, elements: Option<seq<nat>>, ok: bool): seq<Event> {
    match o
    case Continue =>
      if approved then [Loaded(code, fd), VerifyDone(true), Ran(fd), Protocol.Closed(fd), MapRead(mapFd, elements), ExecuteDone(ok)]
      else [Loaded(code, fd), VerifyDone(false), Protocol.Closed(fd)]
    case RunError => [Loaded(code, fd), VerifyDone(true), Ran(fd), Protocol.Closed(fd)]
    case IndexPanic => [Loaded(code, fd), VerifyDone(true), Ran(fd), Protocol.Closed(fd), MapRead(mapFd, elements)]
    case _ => []
  }

  ghost predicate RoundLog(before: seq<Event>, after: seq<Event>, o: Outcome, approved: bool, code: seq<Byte>, fd: int, mapFd: int,
                           elements: Option<seq<nat>>, ok: bool) {
    after == before + RoundEvents(o, approved, code, fd, mapFd, elements, ok)
  }

  lemma RefusedLog(before: seq<Event>, after: seq<Event>, code: seq<Byte>, fd: int, mapFd: int, elements: Option<seq<nat>>, ok: bool)
    requires after == before + [Loaded(code, fd)] + [VerifyDone(false)] + [Protocol.Closed(fd)]
    ensures RoundLog(before, after, Continue, false, code, fd, mapFd, elements, ok)
  {
  }

  /** What `Execute` adds. */
  function ExecuteEvents(o: Outcome, fd: int, mapFd: int, elements: Option<seq<nat>>, ok: bool): seq<Event> {
    [Ran(fd), Protocol.Closed(fd)] + (if o.RunError? then [] else [MapRead(mapFd, elements)]) + if o.Continue? then [ExecuteDone(ok)] else []
  }

  lemma ApprovedLog(before: seq<Event>, verified: seq<Event>, after: seq<Event>, o: Outcome, code: seq<Byte>, fd: int, mapFd: int,
                    elements: Option<seq<nat>>, ok: bool)
    requires o.Continue? || o.RunError? || o.IndexPanic?
    requires verified == before + [Loaded(code, fd)] + [VerifyDone(true)]
    requires after == verified + ExecuteEvents(o, fd, mapFd, elements, ok)
    ensures RoundLog(before, after, o, true, code, fd, mapFd, elements, ok)
  {
  }

  /** What the kernel's answers make of an approved program. */
  function ExecuteCourse(script: nat -> Answer, calls: nat): Outcome {
    if !script(calls).ok then RunError
    else if Verdict(script(calls + 1).reply).None? then IndexPanic
    else Continue
  }

  /** What they make of a submission: the load fails; or is refused or shows nothing new; or is approved, and then run. */
  ghost predicate Decided(o: Outcome, fd: int, elements: Option<seq<nat>>, approved: bool, script: nat -> Answer, calls: nat,
                          open: set<int>, seen: set<nat>, prints: set<nat>)
  {
    var a := script(calls);
    var vr := Validation(open, a);
    if !a.ok then o == ValidationError && !approved
    else
      && fd == vr.programFd && (approved <==> Novel(vr, seen, prints))
      && if approved then o == ExecuteCourse(script, calls + 1) && elements == script(calls + 2).reply else o == Continue
  }

  function CallsOf(o: Outcome, approved: bool): nat {
    if !approved then 1 else if o.RunError? then 2 else 3
  }

  /** What became of a round's program. */
  datatype Course = Course(fd: int, elements: Option<seq<nat>>, approved: bool)

  /** The tape behind the mutation. */
  function MutationRest(t: seq<nat>, base: seq<Instruction>): seq<nat>
    requires |base| >= HEAD_SIZE
  {
    match MutationFrom(t, |base| - HEAD_SIZE)
    case None => []
    case Some((_, rest)) => rest
  }

  lemma RestOfTape(t: seq<nat>, base: seq<Instruction>)
    requires |base| >= HEAD_SIZE
    ensures var d := MutationFrom(t, |base| - HEAD_SIZE); d.Some? ==> MutationRest(t, base) == d.value.1
  {
  }

  lemma EndsInEmission(strat: CoverageBased, r: Generated, base: seq<Instruction>, m: Mutation<Instruction>, drawn: Drawn<nat>, tape: seq<nat>)
    ensures strat.Ends(r, base, m, drawn, tape) ==>
              && |strat.constants| == 9 && (r.MapCreationFailed? <==> strat.mapFd < 0) && (r.NoDraws? ==> tape == [])
              && (r.Program? ==> strat.mapFd >= 0 && Emitted(r.ins, strat.lastMessages, strat.constants, strat.mapFd))
  {
    hide CoverageProgram, PatchedFrom, Footer;
  }

  /** How many programs went to the verifier. */
  function Loads(log: seq<Event>): nat {
    if log == [] then 0 else Loads(log[..|log| - 1]) + if log[|log| - 1].Loaded? then 1 else 0
  }

  lemma {:induction false} LoadsAdd(a: seq<Event>, b: seq<Event>)
    ensures Loads(a + b) == Loads(a) + Loads(b)
  {
    if b == [] {
      assert a + b == a;
    } else {
      LoadsAdd(a, b[..|b| - 1]);
      assert (a + b)[..|a + b| - 1] == a + b[..|b| - 1];
    }
  }

  /** One, unless the load failed. */
  lemma RoundLoads(before: seq<Event>, after: seq<Event>, o: Outcome, approved: bool, code: seq<Byte>, fd: int, mapFd: int,
                   elements: Option<seq<nat>>, ok: bool)
    requires RoundLog(before, after, o, approved, code, fd, mapFd, elements, ok)
    requires o.Continue? || o.ValidationError? || o.RunError? || o.IndexPanic?
    ensures before <= after && Loads(after) == Loads(before) + if o.ValidationError? then 0 else 1
  {
    var events := RoundEvents(o, approved, code, fd, mapFd, elements, ok);
    LoadsAdd(before, events);
    if events != [] {
      LoadsAdd([events[0]], events[1..]);
      assert events == [events[0]] + events[1..];
      NoMoreLoads(events[1..]);
      assert Loads([events[0]]) == 1;
    }
  }

  lemma {:induction false} NoMoreLoads(events: seq<Event>)
    requires forall k | 0 <= k < |events| :: !events[k].Loaded?
    ensures Loads(events) == 0
  {
    if events != [] {
      NoMoreLoads(events[..|events| - 1]);
    }
  }

  lemma TradeLoads(log: seq<Event>, oldFd: int, newFd: int)
    ensures Loads(log + [Protocol.Closed(oldFd), MapCreated(newFd)]) == Loads(log)
  {
    LoadsAdd(log, [Protocol.Closed(oldFd), MapCreated(newFd)]);
    NoMoreLoads([Protocol.Closed(oldFd), MapCreated(newFd)]);
  }

  /** The outcomes of a round that has a program to submit. */
  lemma DecidedCases(o: Outcome, fd: int, elements: Option<seq<nat>>, approved: bool, script: nat -> Answer, calls: nat,
                     open: set<int>, seen: set<nat>, prints: set<nat>)
    requires Decided(o, fd, elements, approved, script, calls, open, seen, prints)
    ensures o.Continue? || o.ValidationError? || o.RunError? || o.IndexPanic?
    ensures Blamed(o, script, calls + CallsOf(o, approved))
  {
    hide Novel, Validation;
  }

  /** An error of the conversation, or a panic, goes back to the kernel's last answer. */
  ghost predicate Blamed(o: Outcome, script: nat -> Answer, calls: nat) {
    && (o.ValidationError? || o.RunError? ==> calls > 0 && !script(calls - 1).ok)
    && (o.IndexPanic? ==> calls > 0 && Verdict(script(calls - 1).reply).None?)
  }

  /** The last thing that happened was an unexpected result, and the only such thing. */
  ghost predicate EndsBadly(log: seq<Event>) {
    log != [] && log[|log| - 1] == ExecuteDone(false) && NoneBad(log[..|log| - 1])
  }

  ghost predicate NoneBad(log: seq<Event>) {
    forall k | 0 <= k < |log| :: log[k] != ExecuteDone(false)
  }

  lemma RoundIsGoodOrEnds(before: seq<Event>, after: seq<Event>, o: Outcome, approved: bool, code: seq<Byte>, fd: int, mapFd: int,
                          elements: Option<seq<nat>>, ok: bool)
    requires NoneBad(before) && RoundLog(before, after, o, approved, code, fd, mapFd, elements, ok)
    ensures if o.Continue? && approved && !ok then EndsBadly(after) else NoneBad(after)
  {
  }

  lemma BadIsNotGood(log: seq<Event>)
    requires EndsBadly(log)
    ensures !NoneBad(log)
  {
    assert log[|log| - 1] == ExecuteDone(false);
  }

  // ---------------------------------------------------------------- strategies that approve everything

  /** What a strategy makes of a look at the map; None is a panic. */
  type Judgement = Option<seq<nat>> -> Option<bool>

  /** What a round adds to the log if the strategy approves whatever the verifier said. */
  function ApprovingEvents(o: Outcome, code: seq<Byte>, fd: int, mapFd: int, reply: Option<seq<nat>>, ok: bool): seq<Event> {
    match o
    case Continue =>
      if fd < 0 then [Loaded(code, fd), VerifyDone(true), Protocol.Closed(fd)]
      else [Loaded(code, fd), VerifyDone(true), Ran(fd), Protocol.Closed(fd), MapRead(mapFd, reply), ExecuteDone(ok)]
    case RunError => [Loaded(code, fd), VerifyDone(true), Ran(fd), Protocol.Closed(fd)]
    case IndexPanic => [Loaded(code, fd), VerifyDone(true), Ran(fd), Protocol.Closed(fd), MapRead(mapFd, reply)]
    case _ => []
  }

  /** What the kernel's answers make of a submission: the load fails; or the program is refused; or it is run and judged. */
  ghost predicate ApprovingDecided(o: Outcome, fd: int, reply: Option<seq<nat>>, ok: bool, verdict: Judgement, script: nat -> Answer, calls: nat, open: set<int>) {
    var a := script(calls);
    if !a.ok then o == ValidationError
    else
      && fd == Granted(open, a.fd)
      && if fd < 0 then o == Continue else RunDecided(o, reply, ok, verdict, script, calls + 1)
  }

  ghost predicate RunDecided(o: Outcome, reply: Option<seq<nat>>, ok: bool, verdict: Judgement, script: nat -> Answer, calls: nat) {
    if !script(calls).ok then o == RunError
    else
      && reply == script(calls + 1).reply
      && match verdict(reply)
         case None => o == IndexPanic
         case Some(v) => o == Continue && ok == v
  }

  function RunCalls(o: Outcome): nat {
    if o.RunError? then 1 else 2
  }

  function ApprovingCalls(o: Outcome, fd: int): nat {
    if o.ValidationError? || fd < 0 then 1 else 1 + RunCalls(o)
  }

  lemma ApprovingCases(o: Outcome, fd: int, reply: Option<seq<nat>>, ok: bool, verdict: Judgement, script: nat -> Answer, calls: nat, open: set<int>)
    requires ApprovingDecided(o, fd, reply, ok, verdict, script, calls, open)
    ensures o.Continue? || o.ValidationError? || o.RunError? || o.IndexPanic?
    ensures o.RunError? || o.IndexPanic? ==> fd >= 0
    ensures o.Continue? && fd >= 0 ==> verdict(reply) == Some(ok)
    ensures ApprovingBlamed(o, verdict, script, calls + ApprovingCalls(o, fd))
  {
  }

  /** An error of the conversation, or a panic, goes back to the kernel's last answer. */
  ghost predicate ApprovingBlamed(o: Outcome, verdict: Judgement, script: nat -> Answer, calls: nat) {
    && (o.ValidationError? || o.RunError? ==> calls > 0 && !script(calls - 1).ok)
    && (o.IndexPanic? ==> calls > 0 && verdict(script(calls - 1).reply).None?)
  }

  lemma ApprovingLoads(before: seq<Event>, o: Outcome, code: seq<Byte>, fd: int, mapFd: int, reply: Option<seq<nat>>, ok: bool)
    requires o.Continue? || o.ValidationError? || o.RunError? || o.IndexPanic?
    ensures Loads(before + ApprovingEvents(o, code, fd, mapFd, reply, ok)) == Loads(before) + if o.ValidationError? then 0 else 1
  {
    var events := ApprovingEvents(o, code, fd, mapFd, reply, ok);
    LoadsAdd(before, events);
    if events != [] {
      LoadsAdd([events[0]], events[1..]);
      assert events == [events[0]] + events[1..];
      NoMoreLoads(events[1..]);
      assert Loads([events[0]]) == 1;
    }
  }

  lemma EventsAppend(before: seq<Event>, o: Outcome, code: seq<Byte>, fd: int, mapFd: int, reply: Option<seq<nat>>, ok: bool)
    ensures before <= before + ApprovingEvents(o, code, fd, mapFd, reply, ok)
  {
  }

  // ---------------------------------------------------------------- the coverage strategy

  class Control {
    const strat: CoverageBased
    const ffi: FFI
    const rng: Rng

    constructor (strat: CoverageBased, ffi: FFI, rng: Rng)
      ensures this.strat == strat && this.ffi == ffi && this.rng == rng
    {
      this.strat, this.ffi, this.rng := strat, ffi, rng;
    }

    /** Strategy, kernel and history agree. */
    ghost predicate Sound()
      reads strat, strat.pq, strat.pq.q, strat.pushed, strat.arrays, strat.cells, ffi
    {
      strat.Valid() && ffi.Valid() && CoverageLog(ffi.log, strat.constants)
    }

    /** Sound, and no program descriptor is held. */
    ghost predicate Tidy()
      reads strat, strat.pq, strat.pq.q, strat.pushed, strat.arrays, strat.cells, ffi
    {
      Sound() && var o := Replay(ffi.log); o.prog < 0 && o.mapFd == strat.mapFd
    }

    /** Sound, and between rounds. */
    ghost predicate AtLoopHead()
      reads strat, strat.pq, strat.pq.q, strat.pushed, strat.arrays, strat.cells, ffi
    {
      Sound() && strat.AtRest(ffi)
    }

    /** Whenever no program is held the current map is the only descriptor open on top of those the fuzzer started with. */
    lemma OnlyTheMapIsOpen()
      requires Tidy()
      ensures ffi.open == ffi.inherited + if strat.mapFd >= 0 then {strat.mapFd} else {}
      ensures Opens(ffi.log) == Closes(ffi.log) + if strat.mapFd >= 0 then 1 else 0
    {
      hide CoverageBased.Valid, CoverageLog;
      DescriptorsBalance(ffi.log);
    }

    lemma RestIsValid()
      ensures strat.AtRest(ffi) ==> ffi.Valid()
    {
    }

    lemma LoopHeadIsTidy()
      ensures AtLoopHead() ==> Tidy()
    {
      hide Sound;
    }

    /** A callback. */
    method Note(e: Event)
      requires Sound() && Legal(Replay(ffi.log), e) && FitsAfter(ffi.log, e, strat.constants) && (e.VerifyDone? || e.ExecuteDone?)
      modifies ffi`log
      ensures Sound() && ffi.log == old(ffi.log) + [e] && Replay(ffi.log) == After(old(Replay(ffi.log)), e)
    {
      hide CoverageLog, FitsAfter, Legal, Replay, FFI.Valid, CoverageBased.Valid;
      CoverageLogExtends(ffi.log, e, strat.constants);
      ReplayExtends(ffi.log, e);
      ffi.Record(e);
    }

    method Run(fd: int) returns (ok: bool)
      requires Sound() && Legal(Replay(ffi.log), Ran(fd))
      modifies ffi`log, ffi`calls
      ensures Sound() && ffi.log == old(ffi.log) + [Ran(fd)] && Replay(ffi.log) == After(old(Replay(ffi.log)), Ran(fd))
      ensures ffi.calls == old(ffi.calls) + 1 && ok == ffi.script(old(ffi.calls)).ok
    {
      hide CoverageLog, Legal, Replay, FFI.Valid, CoverageBased.Valid;
      CoverageLogExtends(ffi.log, Ran(fd), strat.constants);
      ReplayExtends(ffi.log, Ran(fd));
      ok := ffi.RunEbpfProgram(fd);
    }

    method ReadMap() returns (reply: Option<seq<nat>>)
      requires Sound() && forall r :: Legal(Replay(ffi.log), MapRead(strat.mapFd, r))
      modifies ffi`log, ffi`calls
      ensures Sound() && ffi.log == old(ffi.log) + [MapRead(strat.mapFd, reply)]
      ensures Replay(ffi.log) == After(old(Replay(ffi.log)), MapRead(strat.mapFd, reply))
      ensures ffi.calls == old(ffi.calls) + 1 && reply == ffi.script(old(ffi.calls)).reply
    {
      hide CoverageLog, Legal, Replay, FFI.Valid, CoverageBased.Valid;
      ghost var log := ffi.log;
      reply := ffi.GetMapElements(strat.mapFd);
      CoverageLogExtends(log, MapRead(strat.mapFd, reply), strat.constants);
      ReplayExtends(log, MapRead(strat.mapFd, reply));
    }

    method Close(fd: int)
      requires Sound() && Legal(Replay(ffi.log), Protocol.Closed(fd))
      modifies ffi`log, ffi`open
      ensures Sound() && ffi.log == old(ffi.log) + [Protocol.Closed(fd)] && Replay(ffi.log) == After(old(Replay(ffi.log)), Protocol.Closed(fd))
    {
      hide CoverageLog, Legal, Replay, FFI.Valid, CoverageBased.Valid;
      CoverageLogExtends(ffi.log, Protocol.Closed(fd), strat.constants);
      ReplayExtends(ffi.log, Protocol.Closed(fd));
      ffi.CloseFD(fd);
    }

    /** Runs the program, closes it whatever came of that, and has the strategy look at the map. */
    method Execute(fd: int) returns (o: Outcome, ghost elements: Option<seq<nat>>)
      requires Sound() && fd >= 0 && strat.mapFd >= 0 && Replay(ffi.log) == Ownership(strat.mapFd, fd, Judged(true))
      modifies ffi, strat`isFinished
      ensures Tidy() && (o.Continue? ==> AtLoopHead())
      ensures o == ExecuteCourse(ffi.script, old(ffi.calls)) && elements == ffi.script(old(ffi.calls) + 1).reply
      ensures ffi.log == old(ffi.log) + ExecuteEvents(o, fd, strat.mapFd, elements, !strat.isFinished)
      ensures ffi.calls == old(ffi.calls) + if o.RunError? then 1 else 2
      ensures !o.Continue? ==> strat.isFinished == old(strat.isFinished)
    {
      hide Replay, CoverageLog, CoverageBased.Valid, FFI.Valid, Verdict;
      elements := ffi.script(ffi.calls + 1).reply;
      var ran := Run(fd);
      Close(fd);
      if !ran {
        return RunError, elements;
      }
      var reply := ReadMap();
      var ok := strat.OnExecuteDone(reply);
      if ok.None? {
        return IndexPanic, elements;
      }
      Note(ExecuteDone(ok.value));
      o := Continue;
    }

    /** Hands the code to the verifier; on return the program is loaded or refused. */
    method Validate(code: seq<Byte>) returns (r: Option<ValidationResult>)
      requires AtLoopHead() && strat.mapFd >= 0 && code != [] && CodeNames(code, strat.mapFd) && CoverageCode(code, strat.constants)
      modifies ffi
      ensures Sound()
      ensures var a := ffi.script(old(ffi.calls)); r == if a.ok then Some(Validation(old(ffi.open), a)) else None
      ensures ffi.calls == old(ffi.calls) + 1
      ensures r.None? ==> ffi.log == old(ffi.log) && AtLoopHead()
      ensures r.Some? ==> Replay(ffi.log) == Ownership(strat.mapFd, r.value.programFd, Judging)
      ensures r.Some? ==> ffi.log == old(ffi.log) + [Loaded(code, r.value.programFd)]
    {
      hide Replay, CoverageLog, CoverageCode, CodeNames, CoverageBased.Valid, FFI.Valid;
      ghost var log := ffi.log;
      r := ffi.ValidateEbpfProgram(code);
      if r.Some? {
        ReplayExtends(log, Loaded(code, r.value.programFd));
        CoverageLogExtends(log, Loaded(code, r.value.programFd), strat.constants);
      }
    }

    /** The first half of `runEbpf`: encode and verify. */
    method Submit(prog: seq<Instruction>) returns (r: Option<ValidationResult>, e: Outcome)
      requires AtLoopHead() && strat.mapFd >= 0 && IsI32(strat.mapFd)
      requires |strat.constants| == 9 && Emitted(prog, strat.lastMessages, strat.constants, strat.mapFd)
      modifies ffi
      ensures Sound() && e.ValidationError? && AllEncodable(prog)
      ensures var a := ffi.script(old(ffi.calls)); r == if a.ok then Some(Validation(old(ffi.open), a)) else None
      ensures ffi.calls == old(ffi.calls) + 1
      ensures r.None? ==> ffi.log == old(ffi.log) && AtLoopHead()
      ensures r.Some? ==> ffi.log == old(ffi.log) + [Loaded(Encode(prog, |prog|), r.value.programFd)]
      ensures r.Some? ==> Replay(ffi.log) == Ownership(strat.mapFd, r.value.programFd, Judging)
    {
      hide CoverageProgram, Encode, CoverageCode, CodeNames, AllEncodable, Lawful, Replay, Emitted, Validation;
      EmittedCode(prog, strat.lastMessages, strat.constants, strat.mapFd);
      SingleFunction(prog);
      var encoded := EncodeInstructions([Func(prog, [])]);
      if encoded.UnknownOpcode? {
        assert false;
      }
      r := Validate(encoded.value.0);
      e := ValidationError;
    }

    /** `runEbpf`: encode, verify, and when the strategy asks for it, execute and judge. An error ends the run: OnError says halt. */
    method RunEbpf(prog: seq<Instruction>) returns (o: Outcome, ghost fd: int, ghost elements: Option<seq<nat>>, ghost approved: bool)
      requires AtLoopHead() && strat.mapFd >= 0 && IsI32(strat.mapFd)
      requires |strat.constants| == 9 && Emitted(prog, strat.lastMessages, strat.constants, strat.mapFd)
      modifies strat, strat.pq, ffi
      ensures Tidy() && (!o.RunError? && !o.IndexPanic? ==> AtLoopHead())
      ensures Decided(o, fd, elements, approved, ffi.script, old(ffi.calls), old(ffi.open), old(strat.coverageHashTable), old(strat.fingerprintHashTable))
      ensures ffi.calls == old(ffi.calls) + CallsOf(o, approved)
      ensures old(strat.pushed) <= strat.pushed && strat.mapFd == old(strat.mapFd) && strat.programCount == old(strat.programCount)
      ensures strat.validProgramCount == old(strat.validProgramCount) + if !o.ValidationError? && fd >= 0 then 1 else 0
      ensures strat.lastMessages == old(strat.lastMessages) && (o.Continue? || o.ValidationError? || o.RunError? || o.IndexPanic?)
      ensures forall t | t in strat.pq.q :: t in old(strat.pq.q) || fresh(t)
      ensures !(o.Continue? && approved) ==> strat.isFinished == old(strat.isFinished)
      ensures AllEncodable(prog)
      ensures RoundLog(old(ffi.log), ffi.log, o, approved, Encode(prog, |prog|), fd, strat.mapFd, elements, !strat.isFinished)
    {
      hide CoverageProgram, Encode, CoverageLog, AllEncodable, Replay, FFI.Valid, CoverageBased.Valid, Sound, Novel;
      fd, elements, approved := -1, None, false;
      LoopHeadIsTidy();
      assert Sound();
      ghost var seen, prints := strat.coverageHashTable, strat.fingerprintHashTable;
      var result, e := Submit(prog);
      if result.None? {
        LoopHeadIsTidy();
        return e, fd, elements, approved;
      }
      var vr := result.value;
      fd := vr.programFd;
      o, elements, approved := Judge(vr, Encode(prog, |prog|), old(ffi.log));
    }

    /** The second half: the verdict on the load, and the run if there is one. */
    method Judge(vr: ValidationResult, ghost code: seq<Byte>, ghost before: seq<Event>)
      returns (o: Outcome, ghost elements: Option<seq<nat>>, ghost approved: bool)
      requires Sound() && strat.mapFd >= 0 && Replay(ffi.log) == Ownership(strat.mapFd, vr.programFd, Judging)
      requires |strat.constants| == 9 && CoverageProgram(strat.lastMessages, strat.constants)
      requires ffi.log == before + [Loaded(code, vr.programFd)]
      modifies strat, strat.pq, ffi
      ensures Tidy() && (o.Continue? ==> AtLoopHead())
      ensures approved <==> Novel(vr, old(strat.coverageHashTable), old(strat.fingerprintHashTable))
      ensures o == if approved then ExecuteCourse(ffi.script, old(ffi.calls)) else Continue
      ensures approved ==> elements == ffi.script(old(ffi.calls) + 1).reply
      ensures ffi.calls == old(ffi.calls) + if !approved then 0 else if o.RunError? then 1 else 2
      ensures old(strat.pushed) <= strat.pushed && strat.mapFd == old(strat.mapFd) && strat.programCount == old(strat.programCount)
      ensures strat.validProgramCount == old(strat.validProgramCount) + if vr.IsValid() then 1 else 0
      ensures strat.lastMessages == old(strat.lastMessages) && (o.Continue? || o.ValidationError? || o.RunError? || o.IndexPanic?)
      ensures forall t | t in strat.pq.q :: t in old(strat.pq.q) || fresh(t)
      ensures !(o.Continue? && approved) ==> strat.isFinished == old(strat.isFinished)
      ensures RoundLog(before, ffi.log, o, approved, code, vr.programFd, strat.mapFd, elements, !strat.isFinished)
    {
      hide CoverageProgram, CoverageLog, Replay, FFI.Valid, CoverageBased.Valid, RoundLog;
      elements, approved := None, false;
      var proceed := strat.OnVerifyDone(vr);
      Note(VerifyDone(proceed));
      if !proceed || !vr.IsValid() {
        Close(vr.programFd);
        RefusedLog(before, ffi.log, code, vr.programFd, strat.mapFd, elements, !strat.isFinished);
        return Continue, elements, false;
      }
      approved := true;
      ghost var log := ffi.log;
      o, elements := Execute(vr.programFd);
      ApprovedLog(before, log, ffi.log, o, code, vr.programFd, strat.mapFd, elements, !strat.isFinished);
    }

    /**
     * One turn of the loop in `RunFuzzer`. It ends in an error before a program is there, exactly if the draws or the
     * kernel's descriptors fail; otherwise the program that was generated is submitted and meets the kernel's answers.
     */
    method Round() returns (o: Outcome, ghost g: Generated, ghost course: Course)
      requires AtLoopHead() && !strat.isFinished
      modifies strat, strat.pq, strat.pq.q, ffi, rng
      ensures Tidy() && (!o.RunError? && !o.IndexPanic? ==> AtLoopHead())
      ensures strat.programCount == old(strat.programCount) + 1 && old(strat.pushed) <= strat.pushed
      ensures forall t | t in strat.pq.q :: t in old(strat.pq.q) || fresh(t)
      ensures strat.isFinished ==> o.Continue? && course.approved
      ensures g.NoDraws? <==> o.OutOfDraws?
      ensures o.OutOfDraws? ==> rng.tape == []
      ensures o.OutOfDraws? ==> ffi.log == old(ffi.log) || ffi.log == old(ffi.log) + [Protocol.Closed(old(strat.mapFd)), MapCreated(strat.mapFd)]
      ensures g.MapCreationFailed? <==> o.GenerateError?
      ensures o.GenerateError? ==> Granted(old(ffi.open) - {old(strat.mapFd)}, ffi.script(old(ffi.calls)).fd) == -1
      ensures o.GenerateError? ==> ffi.log == old(ffi.log) + [Protocol.Closed(old(strat.mapFd)), MapCreated(-1)]
      ensures g.Program? ==> |strat.constants| == 9 && Emitted(g.ins, strat.lastMessages, strat.constants, strat.mapFd) && AllEncodable(g.ins)
      ensures g.Program? ==>
                && strat.mapFd == Granted(old(ffi.open) - {old(strat.mapFd)}, ffi.script(old(ffi.calls)).fd) >= 0
                && Decided(o, course.fd, course.elements, course.approved, ffi.script, old(ffi.calls) + 1,
                           old(ffi.open) - {old(strat.mapFd)} + {strat.mapFd}, old(strat.coverageHashTable), old(strat.fingerprintHashTable))
                && RoundLog(old(ffi.log) + [Protocol.Closed(old(strat.mapFd)), MapCreated(strat.mapFd)], ffi.log, o, course.approved,
                            Encode(g.ins, |g.ins|), course.fd, strat.mapFd, course.elements, !strat.isFinished)
                && ffi.calls == old(ffi.calls) + 1 + CallsOf(o, course.approved)
    {
      hide CoverageProgram, CoverageLog, Emitted, FFI.Valid, CoverageBased.Valid, RoundLog, Decided, Source, MutationFrom, RegisterFrom;
      hide CoverageBased.Ends, CoverageBased.AtRest, Encode, AllEncodable, CallsOf, Granted, MutationRest, Tidy;
      ghost var log, fd := ffi.log, strat.mapFd;
      course := Course(-1, None, false);
      ghost var base, m;
      var generated;
      generated, base, m := strat.GenerateProgram(ffi, rng);
      g := generated;
      NewMapIsQuiet(log, fd, strat.mapFd, strat.constants);
      RestOfTape(old(rng.tape), base);
      EndsInEmission(strat, generated, base, m, RegisterFrom(MutationRest(old(rng.tape), base)), rng.tape);
      RestIsValid();
      LoopHeadIsTidy();
      match generated
      case NoDraws => o := OutOfDraws;
      case MapCreationFailed => o := GenerateError;
      case Program(ins) =>
        ghost var fd', elements, approved;
        o, fd', elements, approved := RunEbpf(ins);
        course := Course(fd', elements, approved);
    }

    /** One turn, in terms of the run. */
    method CountedRound() returns (o: Outcome)
      requires AtLoopHead() && !strat.isFinished
      modifies strat, strat.pq, strat.pq.q, ffi, rng
      ensures Tidy() && (!o.RunError? && !o.IndexPanic? ==> AtLoopHead()) && !o.Done? && !o.OutOfRounds?
      ensures old(ffi.log) <= ffi.log && old(strat.pushed) <= strat.pushed && strat.programCount == old(strat.programCount) + 1
      ensures forall t | t in strat.pq.q :: t in old(strat.pq.q) || fresh(t)
      ensures strat.isFinished ==> o.Continue?
      ensures NoneBad(old(ffi.log)) ==> if strat.isFinished then EndsBadly(ffi.log) else NoneBad(ffi.log)
      ensures Loads(ffi.log) == Loads(old(ffi.log)) + if NeverLoaded(o) then 0 else 1
      ensures Accounted(o)
    {
      hide CoverageProgram, CoverageLog, Emitted, FFI.Valid, CoverageBased.Valid, RoundLog, EndsBadly, NoneBad, Decided, Loads, Encode, AllEncodable;
      ghost var log, fd, calls := ffi.log, strat.mapFd, ffi.calls;
      ghost var g, course;
      o, g, course := Round();
      StillNoneBad(log, fd, strat.mapFd);
      TradeLoads(log, fd, strat.mapFd);
      if g.Program? {
        ghost var before := log + [Protocol.Closed(fd), MapCreated(strat.mapFd)];
        ghost var code := Encode(g.ins, |g.ins|);
        DecidedCases(o, course.fd, course.elements, course.approved, ffi.script, calls + 1,
                     old(ffi.open) - {fd} + {strat.mapFd}, old(strat.coverageHashTable), old(strat.fingerprintHashTable));
        RoundLoads(before, ffi.log, o, course.approved, code, course.fd, strat.mapFd, course.elements, !strat.isFinished);
        if NoneBad(before) {
          RoundIsGoodOrEnds(before, ffi.log, o, course.approved, code, course.fd, strat.mapFd, course.elements, !strat.isFinished);
        }
      }
    }

    /** Why a run can stop: no draws, no map, or the kernel's last answer. */
    ghost predicate Accounted(o: Outcome)
      reads ffi, rng
    {
      && (o.OutOfDraws? ==> rng.tape == [])
      && (o.GenerateError? ==> ffi.log != [] && ffi.log[|ffi.log| - 1] == MapCreated(-1))
      && Blamed(o, ffi.script, ffi.calls)
    }

    /**
     * `RunFuzzer`, for any number of rounds, any draws and any behaviour of the kernel. Whatever the outcome: the log is
     * lawful, so every descriptor rule held at every step, and no program descriptor is held; everything submitted was
     * coverage code; the scheduler's accounts balance and no stored program has changed; history and the list of pushed
     * traces have only grown. Every round generates a program, and submits it unless it ends the run with an error that
     * the draws or the kernel are to blame for. The loop comes to a regular end exactly on the first unexpected result.
     */
    method RunFuzzer(rounds: nat) returns (o: Outcome)
      requires AtLoopHead()
      modifies strat, strat.pq, strat.pq.q, ffi, rng
      ensures Tidy() && !o.Continue? && (!o.RunError? && !o.IndexPanic? ==> AtLoopHead())
      ensures old(ffi.log) <= ffi.log && old(strat.pushed) <= strat.pushed
      ensures o.Done? <==> strat.isFinished
      ensures old(!strat.isFinished && NoneBad(ffi.log)) ==> if o.Done? then EndsBadly(ffi.log) else NoneBad(ffi.log)
      ensures Counted(o, rounds, strat.programCount - old(strat.programCount), Loads(ffi.log) - Loads(old(ffi.log))) && Accounted(o)
    {
      hide Sound, EndsBadly, NoneBad, Loads, Accounted, Tidy, AtLoopHead, FFI.Valid, CoverageBased.Valid;
      var i := 0;
      LoopHeadIsTidy();
      while i < rounds && !strat.isFinished
        invariant 0 <= i <= rounds && strat.programCount == old(strat.programCount) + i && Loads(ffi.log) == Loads(old(ffi.log)) + i
        invariant AtLoopHead() && Tidy() && old(ffi.log) <= ffi.log && old(strat.pushed) <= strat.pushed
        invariant old(!strat.isFinished && NoneBad(ffi.log)) ==> if strat.isFinished then EndsBadly(ffi.log) else NoneBad(ffi.log)
        invariant forall t | t in strat.pq.q :: t in old(strat.pq.q) || fresh(t)
      {
        ghost var q := strat.pq.q;
        assert forall k | 0 <= k < |q| :: q[k] in old(strat.pq.q) || fresh(q[k]);
        o := CountedRound();
        if !o.Continue? {
          return;
        }
        i := i + 1;
      }
      o := if strat.isFinished then Done else OutOfRounds;
      NothingToBlame(o);
    }

    lemma NothingToBlame(o: Outcome)
      requires o.Done? || o.OutOfRounds?
      ensures Accounted(o)
    {
    }
  }

  /** How many programs a run of so many rounds generated, and how many of them went to the verifier. */
  predicate Counted(o: Outcome, rounds: nat, generated: int, loaded: int) {
    && 0 <= generated <= rounds && (o.OutOfRounds? ==> generated == rounds) && (NeverLoaded(o) ==> generated > 0)
    && loaded == generated - if NeverLoaded(o) then 1 else 0
  }

  /** The last program of the run never got to the verifier. */
  predicate NeverLoaded(o: Outcome) {
    o.OutOfDraws? || o.GenerateError? || o.ValidationError?
  }

  lemma StillNoneBad(log: seq<Event>, oldFd: int, newFd: int)
    ensures NoneBad(log) ==> NoneBad(log + [Protocol.Closed(oldFd), MapCreated(newFd)])
  {
  }

  lemma RunBegins(c: Control)
    requires c.strat.Valid() && c.ffi.Valid() && c.ffi.log == [] && c.strat.mapFd == -1
    ensures c.AtLoopHead()
  {
    hide CoverageBased.Valid;
  }
}
