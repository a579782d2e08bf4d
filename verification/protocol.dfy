/** The fuzzer's conversation with the kernel: descriptors, callbacks and the rules they must obey. */
module Protocol {
  import opened Words
  import opened Instructions
  import opened Encoding
  import opened Random

  /** One call across the FFI boundary, or one strategy callback. A negative descriptor means that the kernel refused, no elements that the reply was unreadable. */
  datatype Event =
    | MapCreated(fd: int)
    | Loaded(code: seq<Byte>, fd: int)
    | VerifyDone(proceed: bool)
    | Ran(fd: int)
    | MapRead(fd: int, elements: Option<seq<nat>>)
    | ExecuteDone(ok: bool)
    | Closed(fd: int)

  datatype Stage = Idle | Judging | Judged(proceed: bool) | Executed | Released | Inspected

  /** What is open on the fuzzer's account: the current map and the program under test, negative for none. */
  datatype Ownership = Ownership(mapFd: int, prog: int, stage: Stage)

  predicate IsMapLoad(i: Instruction) {
    IsWide(i) && i.src == PSEUDO_MAP_FD
  }

  ghost predicate MapLoadsName(p: seq<Instruction>, fd: int) {
    forall i | 0 <= i < |p| && IsMapLoad(p[i]) :: p[i].imm == fd
  }

  /** The bytes decode, and every map load among them names the descriptor. */
  ghost predicate CodeNames(code: seq<Byte>, fd: int) {
    Decode(code, 0).Ok? && MapLoadsName(Decode(code, 0).value, fd)
  }

  /**
   * The rules. A program is submitted only while a map is open, and every map load in it names that map. It runs only
   * after the verifier accepted it and OnVerifyDone said so. Its descriptor is closed only when no run is pending, and
   * OnExecuteDone looks at the map only after that, at most once. Between rounds the only close is that of the current
   * map; the other close of a round is that of its program. Either may be the -1 of something that was never opened.
   */
  ghost predicate Legal(o: Ownership, e: Event) {
    match e
    case MapCreated(_) => o.stage == Idle && o.mapFd < 0 && o.prog < 0
    case Loaded(code, fd) => o.stage == Idle && o.mapFd >= 0 && o.prog < 0 && (fd >= 0 ==> fd != o.mapFd) && CodeNames(code, o.mapFd)
    case VerifyDone(_) => o.stage == Judging
    case Ran(fd) => o.stage == Judged(true) && fd == o.prog >= 0
    case MapRead(fd, _) => o.stage == Released && fd == o.mapFd >= 0
    case ExecuteDone(_) => o.stage == Released || o.stage == Inspected
    case Closed(fd) =>
      if o.stage == Idle then fd == o.mapFd && o.prog < 0
      else fd == o.prog && (o.stage == Judged(false) || o.stage == Executed || (o.stage == Judged(true) && fd < 0))
  }

  function After(o: Ownership, e: Event): Ownership {
    match e
    case MapCreated(fd) => Ownership(fd, o.prog, Idle)
    case Loaded(_, fd) => Ownership(o.mapFd, fd, Judging)
    case VerifyDone(proceed) => o.(stage := Judged(proceed))
    case Ran(_) => o.(stage := Executed)
    case MapRead(_, _) => o.(stage := Inspected)
    case ExecuteDone(_) => o.(stage := Idle)
    case Closed(fd) =>
      if o.stage == Idle then o.(mapFd := -1)
      else Ownership(o.mapFd, -1, if o.stage == Executed then Released else Idle)
  }

  const NOTHING: Ownership := Ownership(-1, -1, Idle)

  /** The state after a log. */
  function Replay(log: seq<Event>): Ownership {
    if log == [] then NOTHING else After(Replay(log[..|log| - 1]), log[|log| - 1])
  }

  ghost predicate Lawful(log: seq<Event>) {
    forall k | 0 <= k < |log| :: Legal(Replay(log[..k]), log[k])
  }

  lemma ReplayExtends(log: seq<Event>, e: Event)
    ensures Replay(log + [e]) == After(Replay(log), e)
  {
    assert (log + [e])[..|log|] == log;
  }

  lemma LawfulExtends(log: seq<Event>, e: Event)
    requires Lawful(log) && Legal(Replay(log), e)
    ensures Lawful(log + [e]) && Replay(log + [e]) == After(Replay(log), e)
  {
    hide Legal, Replay;
    ReplayExtends(log, e);
    var all := log + [e];
    forall k | 0 <= k < |all|
      ensures Legal(Replay(all[..k]), all[k])
    {
      if k < |log| {
        assert all[..k] == log[..k] && all[k] == log[k];
      } else {
        assert all[..k] == log;
      }
    }
  }

  function Held(o: Ownership): nat {
    (if o.mapFd >= 0 then 1 else 0) + if o.prog >= 0 then 1 else 0
  }

  function Opens(log: seq<Event>): nat {
    if log == [] then 0
    else Opens(log[..|log| - 1]) +
         match log[|log| - 1]
         case MapCreated(fd) => if fd >= 0 then 1 else 0
         case Loaded(_, fd) => if fd >= 0 then 1 else 0
         case _ => 0
  }

  function Closes(log: seq<Event>): nat {
    if log == [] then 0
    else Closes(log[..|log| - 1]) +
         match log[|log| - 1]
         case Closed(fd) => if fd >= 0 then 1 else 0
         case _ => 0
  }

  /** In every lawful log, every descriptor ever obtained has been closed exactly once, but for those still held. */
  lemma {:induction false} DescriptorsBalance(log: seq<Event>)
    requires Lawful(log)
    ensures Opens(log) == Closes(log) + Held(Replay(log))
  {
    if log != [] {
      var front := log[..|log| - 1];
      assert forall k | 0 <= k < |front| :: front[..k] == log[..k] && front[k] == log[k];
      DescriptorsBalance(front);
      assert Legal(Replay(front), log[|log| - 1]);
    }
  }

  lemma LastStep(log: seq<Event>, k: nat)
    requires Lawful(log) && 0 < k <= |log|
    ensures Replay(log[..k]) == After(Replay(log[..k - 1]), log[k - 1]) && Legal(Replay(log[..k - 1]), log[k - 1])
  {
    assert log[..k][..k - 1] == log[..k - 1] && log[..k][k - 1] == log[k - 1];
  }

  /** In every lawful log, what ran had been loaded as valid and approved by OnVerifyDone, with nothing in between. */
  lemma RanMeansApproved(log: seq<Event>, k: nat)
    requires Lawful(log) && k < |log| && log[k].Ran?
    ensures k >= 2 && log[k - 1] == VerifyDone(true) && log[k - 2].Loaded? && log[k - 2].fd == log[k].fd >= 0
  {
    hide CodeNames;
    assert Legal(Replay(log[..k]), log[k]);
    LastStep(log, k);
    LastStep(log, k - 1);
  }

  /** In every lawful log, a verdict given right after a look at the map is about what was loaded, approved, run and closed before it. */
  lemma VerdictFollows(log: seq<Event>, k: nat)
    requires Lawful(log) && 0 < k < |log| && log[k].ExecuteDone? && log[k - 1].MapRead?
    ensures k >= 5 && log[k - 5].Loaded? && log[k - 4] == VerifyDone(true) && log[k - 3].Ran? && log[k - 2].Closed?
    ensures CodeNames(log[k - 5].code, log[k - 1].fd)
  {
    hide CodeNames;
    LastStep(log, k);
    LastStep(log, k - 1);
    LastStep(log, k - 2);
    LastStep(log, k - 3);
    LastStep(log, k - 4);
  }

  /** What is unlawful stays so. */
  lemma LawfulPrefix(log: seq<Event>, more: seq<Event>)
    requires Lawful(log + more)
    ensures Lawful(log)
  {
    hide Legal, Replay;
    var all := log + more;
    forall k | 0 <= k < |log|
      ensures Legal(Replay(log[..k]), log[k])
    {
      assert all[..k] == log[..k] && all[k] == log[k];
    }
  }

  /** OnVerifyDone approves only what the verifier accepted. */
  ghost predicate Candid(log: seq<Event>) {
    forall k | 0 <= k < |log| && log[k] == VerifyDone(true) :: k > 0 && log[k - 1].Loaded? && log[k - 1].fd >= 0
  }

  ghost predicate NoneRefused(log: seq<Event>) {
    forall k | 0 <= k < |log| && log[k].Loaded? :: log[k].fd >= 0
  }

  /** Which descriptors are the fuzzer's own. */
  function Owned(o: Ownership): set<int> {
    (if o.mapFd >= 0 then {o.mapFd} else {}) + if o.prog >= 0 then {o.prog} else {}
  }
}

/** The kernel behind pkg/units/ffi.go: it hands out descriptors that are not open, and any verdict it likes. */
module KernelInterface {
  import opened Words
  import opened Protocol
  import opened Random
  import CoverageSets

  /** `is_valid` holds exactly when the load returned a descriptor; the addresses went through the de-duplication loop. */
  datatype ValidationResult = ValidationResult(programFd: int, didCollectCoverage: bool, coverageAddress: seq<nat>) {
    predicate IsValid() { programFd >= 0 }
  }

  /**
   * What the kernel has in store for one call: a descriptor to hand out if it is free, whether the call goes through at
   * all, the coverage samples of a load, and the reply to a look at the map.
   */
  datatype Answer = Answer(fd: int, ok: bool, collected: bool, samples: seq<nat>, reply: Option<seq<nat>>)

  /** A descriptor that is not in use, or refusal. */
  function Granted(open: set<int>, fd: int): (r: int)
    ensures r == -1 || (0 <= r && IsI32(r) && r !in open)
  {
    if 0 <= fd && IsI32(fd) && fd !in open then fd else -1
  }

  /** What a load that goes through reports. */
  function Validation(open: set<int>, a: Answer): ValidationResult {
    ValidationResult(Granted(open, a.fd), a.collected, CoverageSets.FirstSeen(a.samples, |a.samples|))
  }

  class FFI {
    /** Every descriptor open in the process, the history of calls, and how many answers have been given. */
    var open: set<int>
    var log: seq<Event>
    var calls: nat
    const script: nat -> Answer
    ghost const inherited: set<nat>

    ghost predicate Valid()
      reads `open, `log
    {
      var o := Replay(log);
      && Lawful(log)
      && open == inherited + Owned(o) && inherited !! Owned(o)
      && (o.mapFd >= 0 ==> o.mapFd != o.prog)
    }

    constructor (inherited: set<nat>, script: nat -> Answer)
      ensures Valid() && log == [] && calls == 0 && open == inherited && this.inherited == inherited && this.script == script
    {
      this.inherited, this.script := inherited, script;
      open, log, calls := inherited, [], 0;
    }

    /** Enters into the history what opens and closes nothing. */
    method Enter(e: Event)
      requires e.VerifyDone? || e.Ran? || e.MapRead? || e.ExecuteDone?
      modifies `log
      ensures log == old(log) + [e]
      ensures old(Valid() && Legal(Replay(log), e)) ==> Valid()
    {
      hide Legal, Lawful, Replay;
      if Valid() && Legal(Replay(log), e) {
        LawfulExtends(log, e);
      }
      log := log + [e];
    }

    /** Records a callback. */
    method Record(e: Event)
      requires e.VerifyDone? || e.ExecuteDone?
      modifies `log
      ensures log == old(log) + [e]
      ensures old(Valid() && Legal(Replay(log), e)) ==> Valid()
    {
      hide Legal, FFI.Valid;
      Enter(e);
    }

    /** `RunEbpfProgram`: whether the conversation went through; what the program did is not asked. */
    method RunEbpfProgram(fd: int) returns (ok: bool)
      modifies `log, `calls
      ensures log == old(log) + [Ran(fd)] && calls == old(calls) + 1 && ok == script(old(calls)).ok
      ensures old(Valid() && Legal(Replay(log), Ran(fd))) ==> Valid()
    {
      hide Legal, FFI.Valid;
      ok := script(calls).ok;
      calls := calls + 1;
      Enter(Ran(fd));
    }

    /** `GetMapElements`; None is an error of the conversation. */
    method GetMapElements(fd: int) returns (reply: Option<seq<nat>>)
      modifies `log, `calls
      ensures log == old(log) + [MapRead(fd, reply)] && calls == old(calls) + 1 && reply == script(old(calls)).reply
      ensures old(Valid()) && (forall r :: old(Legal(Replay(log), MapRead(fd, r)))) ==> Valid()
    {
      hide Legal, FFI.Valid;
      reply := script(calls).reply;
      calls := calls + 1;
      Enter(MapRead(fd, reply));
    }

    /** Closes whatever descriptor it is given. */
    method CloseFD(fd: int)
      modifies `log, `open
      ensures log == old(log) + [Closed(fd)] && open == old(open) - {fd}
      ensures old(Valid() && Legal(Replay(log), Closed(fd))) ==> Valid()
    {
      hide Lawful, Replay;
      if Valid() && Legal(Replay(log), Closed(fd)) {
        LawfulExtends(log, Closed(fd));
      }
      open := open - {fd};
      log := log + [Closed(fd)];
    }

    method CreateMapArray() returns (fd: int)
      modifies this
      ensures fd == Granted(old(open), script(old(calls)).fd) && calls == old(calls) + 1
      ensures log == old(log) + [MapCreated(fd)] && open == old(open) + if fd >= 0 then {fd} else {}
      ensures old(Valid() && Legal(Replay(log), MapCreated(-1))) ==> Valid()
    {
      hide Lawful, Replay;
      fd := Granted(open, script(calls).fd);
      calls := calls + 1;
      if Valid() && Legal(Replay(log), MapCreated(-1)) {
        LawfulExtends(log, MapCreated(fd));
      }
      if fd >= 0 {
        open := open + {fd};
      }
      log := log + [MapCreated(fd)];
    }

    /** What is submitted while a map is open and names that map. */
    ghost predicate MaySubmit(code: seq<Byte>)
      reads `open, `log
    {
      var o := Replay(log);
      Valid() && o.stage == Idle && o.mapFd >= 0 && o.prog < 0 && CodeNames(code, o.mapFd)
    }

    /** Empty code and failures of the conversation are errors, and then nothing happened. */
    method ValidateEbpfProgram(code: seq<Byte>) returns (r: Option<ValidationResult>)
      modifies this
      ensures r.None? <==> code == [] || !script(old(calls)).ok
      ensures r.Some? ==> r.value == Validation(old(open), script(old(calls)))
      ensures calls == old(calls) + if code == [] then 0 else 1
      ensures r.None? ==> log == old(log) && open == old(open)
      ensures r.Some? ==> log == old(log) + [Loaded(code, r.value.programFd)]
      ensures r.Some? ==> open == old(open) + if r.value.IsValid() then {r.value.programFd} else {}
      ensures old(MaySubmit(code)) ==> Valid()
    {
      hide Lawful, Replay, CodeNames;
      if code == [] {
        return None;
      }
      var a := script(calls);
      calls := calls + 1;
      if !a.ok {
        return None;
      }
      var addresses := CoverageSets.Deduplicate(a.samples);
      var fd := Granted(open, a.fd);
      if MaySubmit(code) {
        LawfulExtends(log, Loaded(code, fd));
      }
      if fd >= 0 {
        open := open + {fd};
      }
      log := log + [Loaded(code, fd)];
      r := Some(ValidationResult(fd, a.collected, addresses));
    }
  }
}
