/** The metrics unit: counters, sampling, and a queue between the control thread and the processing goroutine. */
module MetricsUnit {
  import opened Random
  import opened Strings
  import opened CoverageSets
  import CoverageManagers

  datatype ValidationResult = ValidationResult(isValid: bool, verifierLog: string, coverageAddress: seq<nat>)

  // ---------------------------------------------------------------- the verifier log

  /** The third part from the end, or an index panic. */
  function VerifierError(log: string): Option<string> {
    var parts := Split(log, '\n');
    if |parts| < 3 then None else Some(parts[|parts| - 3])
  }

  /** Two line breaks are what it takes. */
  lemma ErrorNeedsTwoLines(log: string)
    ensures VerifierError(log).Some? <==> Count(log, '\n') >= 2
  {
    SplitIsExact(log, '\n');
  }

  /** It is the line above the last two parts. */
  lemma ErrorLine(pre: string, e: string, x: string, y: string)
    requires '\n' !in e && '\n' !in x && '\n' !in y
    ensures VerifierError(pre + ['\n'] + e + ['\n'] + x + ['\n'] + y) == Some(e)
  {
    var a, b, c := pre + ['\n'] + e, pre + ['\n'] + e + ['\n'] + x, pre + ['\n'] + e + ['\n'] + x + ['\n'] + y;
    LastPart(pre, '\n', e);
    LastPart(a, '\n', x);
    LastPart(b, '\n', y);
  }

  // ---------------------------------------------------------------- shared state and its critical sections

  datatype Shared = Shared(programsVerified: nat, validPrograms: nat, queue: seq<ValidationResult>, latestLog: string, verdicts: map<string, nat>)

  function Tally(v: map<string, nat>, e: string): nat {
    if e in v then v[e] else 0
  }

  /** `processVerifierLog`; None is a panic of the processing goroutine. */
  function ProcessLog(s: Shared, r: ValidationResult): Option<Shared> {
    if r.verifierLog == "" then Some(s)
    else
      var t := s.(latestLog := r.verifierLog);
      if r.isValid then Some(t)
      else match VerifierError(r.verifierLog)
        case None => None
        case Some(e) => Some(t.(verdicts := s.verdicts[e := Tally(s.verdicts, e) + 1]))
  }

  function AddVerified(s: Shared): Shared { s.(programsVerified := s.programsVerified + 1) }
  function AddValid(s: Shared): Shared { s.(validPrograms := s.validPrograms + 1) }
  function Enqueue(s: Shared, r: ValidationResult): Shared { s.(queue := s.queue + [r]) }
  function Dequeue(s: Shared): Shared
    requires s.queue != []
  {
    s.(queue := s.queue[1..])
  }

  class Metrics {
    var programsVerified: nat
    var validPrograms: nat
    var queue: seq<ValidationResult>
    var latestLog: string
    var verdicts: map<string, nat>
    const samplingThreshold: int
    const isKCovSupported: bool

    ghost function View(): Shared
      reads this
    {
      Shared(programsVerified, validPrograms, queue, latestLog, verdicts)
    }

    constructor (threshold: int, kcov: bool)
      ensures View() == Shared(0, 0, [], "", map[]) && samplingThreshold == threshold && isKCovSupported == kcov
    {
      programsVerified, validPrograms, queue, latestLog, verdicts := 0, 0, [], "", map[];
      samplingThreshold, isKCovSupported := threshold, kcov;
    }

    method RecordVerifiedProgram()
      modifies this
      ensures View() == AddVerified(old(View()))
    {
      programsVerified := programsVerified + 1;
    }

    method RecordValidProgram()
      modifies this
      ensures View() == AddValid(old(View()))
    {
      validPrograms := validPrograms + 1;
    }

    method EnqueueValidationResult(r: ValidationResult)
      modifies this
      ensures View() == Enqueue(old(View()), r)
    {
      queue := queue + [r];
    }

    method DequeueValidationResult() returns (r: Option<ValidationResult>)
      modifies this
      ensures r.None? <==> old(queue) == []
      ensures r.None? ==> View() == old(View())
      ensures r.Some? ==> r.value == old(queue)[0] && View() == Dequeue(old(View()))
    {
      if |queue| == 0 {
        return None;
      }
      r := Some(queue[0]);
      queue := if |queue| == 1 then [] else queue[1..];
    }

    /** False as second result is the panic of indexing a log of fewer than three parts. */
    method ProcessVerifierLog(r: ValidationResult) returns (ok: bool)
      modifies this
      ensures ok <==> ProcessLog(old(View()), r).Some?
      ensures ok ==> Some(View()) == ProcessLog(old(View()), r)
    {
      var log := r.verifierLog;
      if |log| == 0 {
        return true;
      }
      latestLog := log;
      if r.isValid {
        return true;
      }
      var parts := Split(log, '\n');
      if |parts| < 3 {
        return false;
      }
      var e := parts[|parts| - 3];
      if e !in verdicts {
        verdicts := verdicts[e := 1];
      } else {
        verdicts := verdicts[e := verdicts[e] + 1];
      }
      ok := true;
    }

    /** `shouldCollectDetailedInfo`; None is a division by a zero threshold. */
    method ShouldCollectDetailedInfo() returns (r: Option<bool>)
      ensures r == Sampled(programsVerified, samplingThreshold)
    {
      if samplingThreshold == 0 {
        return None;
      }
      r := Some(programsVerified % (if samplingThreshold < 0 then -samplingThreshold else samplingThreshold) == 0);
    }
  }

  /** Go's remainder is zero for a negative divisor exactly when it is for the positive one. */
  function Sampled(n: nat, threshold: int): Option<bool> {
    if threshold == 0 then None else Some(n % Abs(threshold) == 0)
  }

  function Abs(x: int): nat { if x < 0 then -x else x }

  // ---------------------------------------------------------------- two threads

  datatype Control =
    | AtRest                               // between programs
    | Checking                             // counted, about to compare with the threshold
    | Verifying                            // the kernel is at work
    | Recording(r: ValidationResult)       // a result arrived
    | Enqueueing(r: ValidationResult)      // counted as valid or not, about to be queued

  datatype Processor = Waiting | Resolving(r: ValidationResult) | Logging(r: ValidationResult)

  /** The shared state, where each thread stands, and what has happened so far. */
  datatype State = State(shared: Shared, control: Control, processor: Processor,
                         sampled: nat, enqueued: seq<ValidationResult>, processed: seq<ValidationResult>, cached: seq<nat>)

  /** The control thread's step takes what the kernel answers, the processor's what the resolver of addresses does. */
  datatype Step = ControlStep(answer: Option<ValidationResult>) | ProcessorStep(reply: CoverageManagers.Reply)

  /** The sampling threshold, whether the kernel supports coverage, and the line of each address. */
  datatype Settings = Settings(threshold: int, kcov: bool, res: nat -> CoverageManagers.Line)

  function ControlNext(s: State, answer: Option<ValidationResult>, env: Settings): Option<State> {
    var sh := s.shared;
    match s.control
    case AtRest =>
      Some(s.(shared := AddVerified(sh), control := if env.kcov then Checking else Verifying))
    case Checking =>
      (match Sampled(sh.programsVerified, env.threshold)
       case None => None
       case Some(yes) => Some(s.(sampled := s.sampled + (if yes then 1 else 0), control := Verifying)))
    case Verifying =>
      (match answer
       case None => Some(s.(control := AtRest))
       case Some(r) => Some(s.(control := Recording(r))))
    case Recording(r) =>
      Some(s.(shared := if r.isValid then AddValid(sh) else sh, control := Enqueueing(r)))
    case Enqueueing(r) =>
      Some(s.(shared := Enqueue(sh, r), enqueued := s.enqueued + [r], control := AtRest))
  }

  /** A panic of `ProcessCoverageAddresses` ends the goroutine; its errors are only printed. */
  function ProcessorNext(s: State, reply: CoverageManagers.Reply, env: Settings): Option<State> {
    var sh := s.shared;
    match s.processor
    case Waiting =>
      if sh.queue == [] then Some(s)
      else Some(s.(shared := Dequeue(sh), processor := Resolving(sh.queue[0])))
    case Resolving(r) =>
      var resolved := CoverageManagers.Resolve(s.cached, r.coverageAddress, env.res, reply);
      if resolved.stop == CoverageManagers.Crashed then None
      else Some(s.(cached := s.cached + resolved.added, processor := Logging(r)))
    case Logging(r) =>
      match ProcessLog(sh, r)
      case None => None
      case Some(t) => Some(s.(shared := t, processor := Waiting, processed := s.processed + [r]))
  }

  function Next(s: State, step: Step, env: Settings): Option<State> {
    match step
    case ControlStep(answer) => ControlNext(s, answer, env)
    case ProcessorStep(reply) => ProcessorNext(s, reply, env)
  }

  function Start(): State {
    State(Shared(0, 0, [], "", map[]), AtRest, Waiting, 0, [], [], [])
  }

  /** Any interleaving; None once a thread has panicked. */
  function Run(steps: seq<Step>, env: Settings): Option<State> {
    if steps == [] then Some(Start())
    else match Run(steps[..|steps| - 1], env)
      case None => None
      case Some(s) => Next(s, steps[|steps| - 1], env)
  }

  // ---------------------------------------------------------------- what every interleaving keeps

  function InFlight(p: Processor): seq<ValidationResult> {
    if p.Waiting? then [] else [p.r]
  }

  function ValidCount(rs: seq<ValidationResult>): nat {
    if rs == [] then 0 else ValidCount(rs[..|rs| - 1]) + if rs[|rs| - 1].isValid then 1 else 0
  }

  /** The errors of the processed invalid results that came with a log. */
  function Errors(rs: seq<ValidationResult>): seq<string> {
    if rs == [] then []
    else
      var front, r := Errors(rs[..|rs| - 1]), rs[|rs| - 1];
      if r.isValid || r.verifierLog == "" then front
      else match VerifierError(r.verifierLog)
        case None => front
        case Some(e) => front + [e]
  }

  /** How many of them are invalid and came with a log. */
  function Refused(rs: seq<ValidationResult>): nat {
    if rs == [] then 0
    else Refused(rs[..|rs| - 1]) + var r := rs[|rs| - 1]; if !r.isValid && r.verifierLog != "" then 1 else 0
  }

  /** The log of the last of them that came with one. */
  function LatestLog(rs: seq<ValidationResult>): string {
    if rs == [] then "" else if rs[|rs| - 1].verifierLog != "" then rs[|rs| - 1].verifierLog else LatestLog(rs[..|rs| - 1])
  }

  ghost predicate Fifo(s: State) {
    s.enqueued == s.processed + InFlight(s.processor) + s.shared.queue
  }

  /** Every valid result counted once; each belongs to a verified program. */
  ghost predicate Counters(s: State) {
    && s.shared.validPrograms == ValidCount(s.enqueued) + (if s.control.Enqueueing? && s.control.r.isValid then 1 else 0)
    && |s.enqueued| + (if s.control.AtRest? then 0 else 1) <= s.shared.programsVerified
  }

  /** One in `threshold` of the programs whose check is over. */
  ghost predicate Sampling(s: State, threshold: int, kcov: bool) {
    if !kcov then s.sampled == 0 && !s.control.Checking?
    else
      var checked := s.shared.programsVerified - if s.control.Checking? then 1 else 0;
      checked >= 0 && (if threshold == 0 then s.sampled == checked == 0 else s.sampled == checked / Abs(threshold))
  }

  /** Every verdict count is the number of times its error came up, and they sum to the invalid results with a log. */
  ghost predicate Verdicts(s: State) {
    && |Errors(s.processed)| == Refused(s.processed)
    && s.shared.latestLog == LatestLog(s.processed)
    && (forall e :: Tally(s.shared.verdicts, e) == multiset(Errors(s.processed))[e])
    && forall e | e in s.shared.verdicts :: s.shared.verdicts[e] > 0
  }

  ghost predicate AskedFor(rs: seq<ValidationResult>, a: nat) {
    exists r | r in rs :: a in r.coverageAddress
  }

  ghost predicate Distinct(rs: seq<ValidationResult>) {
    forall r | r in rs :: NoDuplicates(r.coverageAddress)
  }

  /** Only resolvable addresses that some result covered are cached; none twice, if no result names one twice. */
  ghost predicate Caching(s: State, res: nat -> CoverageManagers.Line) {
    && (forall a | a in s.cached :: res(a).Parsed? && AskedFor(s.processed + InFlight(s.processor), a))
    && (Distinct(s.enqueued) ==> NoDuplicates(s.cached))
  }

  ghost predicate Invariant(s: State, env: Settings) {
    Fifo(s) && Counters(s) && Sampling(s, env.threshold, env.kcov) && Verdicts(s) && Caching(s, env.res)
  }

  lemma ValidCountAdds(rs: seq<ValidationResult>, r: ValidationResult)
    ensures ValidCount(rs + [r]) == ValidCount(rs) + if r.isValid then 1 else 0
  {
    assert (rs + [r])[..|rs|] == rs;
  }

  lemma {:induction false} ValidCountBound(rs: seq<ValidationResult>)
    ensures ValidCount(rs) <= |rs|
  {
    if rs != [] {
      ValidCountBound(rs[..|rs| - 1]);
    }
  }

  /** The quotient goes up by one exactly at the multiples. */
  lemma QuotientStep(n: nat, t: nat)
    requires t > 0
    ensures (n + 1) / t == n / t + if (n + 1) % t == 0 then 1 else 0
  {
    var q, r := n / t, n % t;
    if r == t - 1 {
      UniqueQuotient(n + 1, t, q + 1, 0);
    } else {
      UniqueQuotient(n + 1, t, q, r + 1);
    }
  }

  lemma UniqueQuotient(x: nat, t: nat, q: nat, r: nat)
    requires 0 <= r < t && x == t * q + r
    ensures x / t == q && x % t == r
  {
    var d := x / t - q;
    assert t * d == r - x % t;
    MultipleIsFar(t, d);
  }

  lemma MultipleIsFar(t: nat, d: int)
    ensures d > 0 ==> t * d >= t
    ensures d < 0 ==> t * d + t <= 0
  {
  }

  lemma ErrorsAdd(rs: seq<ValidationResult>, r: ValidationResult)
    ensures Errors(rs + [r]) ==
            Errors(rs) + if r.isValid || r.verifierLog == "" || VerifierError(r.verifierLog).None? then [] else [VerifierError(r.verifierLog).value]
  {
    assert (rs + [r])[..|rs|] == rs;
  }

  lemma RefusedAdds(rs: seq<ValidationResult>, r: ValidationResult)
    ensures Refused(rs + [r]) == Refused(rs) + if !r.isValid && r.verifierLog != "" then 1 else 0
  {
    assert (rs + [r])[..|rs|] == rs;
  }

  lemma VerdictsStep(s: State, r: ValidationResult, t: Shared)
    requires Verdicts(s) && ProcessLog(s.shared, r) == Some(t)
    ensures Verdicts(s.(shared := t, processor := Waiting, processed := s.processed + [r]))
  {
    hide VerifierError, Errors, Refused, LatestLog, Count;
    ErrorsAdd(s.processed, r);
    RefusedAdds(s.processed, r);
    LatestAdds(s.processed, r);
    if r.verifierLog != "" && !r.isValid {
      var e := VerifierError(r.verifierLog).value;
      forall f
        ensures Tally(t.verdicts, f) == Tally(s.shared.verdicts, f) + if f == e then 1 else 0
      {
      }
    }
  }

  lemma LatestAdds(rs: seq<ValidationResult>, r: ValidationResult)
    ensures LatestLog(rs + [r]) == if r.verifierLog != "" then r.verifierLog else LatestLog(rs)
  {
    assert (rs + [r])[..|rs|] == rs;
  }

  lemma SamplingStep(s: State, threshold: int, yes: bool)
    requires Sampling(s, threshold, true) && s.control.Checking? && Sampled(s.shared.programsVerified, threshold) == Some(yes)
    ensures Sampling(s.(sampled := s.sampled + (if yes then 1 else 0), control := Verifying), threshold, true)
  {
    QuotientStep(s.shared.programsVerified - 1, Abs(threshold));
  }

  lemma ControlKeeps(s: State, answer: Option<ValidationResult>, env: Settings)
    requires Invariant(s, env) && ControlNext(s, answer, env).Some?
    ensures Invariant(ControlNext(s, answer, env).value, env)
  {
    hide ValidCount, Verdicts, Caching;
    var t := ControlNext(s, answer, env).value;
    ControlFrame(s, answer, env);
    SameVerdicts(s, t);
    SameCaching(s, t, env.res);
    if s.control.Checking? {
      SamplingStep(s, env.threshold, Sampled(s.shared.programsVerified, env.threshold).value);
    }
    if s.control.Enqueueing? {
      ValidCountAdds(s.enqueued, s.control.r);
    }
  }

  /** The control thread never touches what the processor works on. */
  lemma ControlFrame(s: State, answer: Option<ValidationResult>, env: Settings)
    requires ControlNext(s, answer, env).Some?
    ensures var t := ControlNext(s, answer, env).value;
            && t.shared.verdicts == s.shared.verdicts && t.shared.latestLog == s.shared.latestLog && t.processed == s.processed && t.cached == s.cached && t.processor == s.processor
            && s.enqueued <= t.enqueued
  {
  }

  lemma SameVerdicts(s: State, t: State)
    requires Verdicts(s) && t.shared.verdicts == s.shared.verdicts && t.shared.latestLog == s.shared.latestLog && t.processed == s.processed
    ensures Verdicts(t)
  {
  }

  lemma SameCaching(s: State, t: State, res: nat -> CoverageManagers.Line)
    requires Caching(s, res) && t.cached == s.cached && s.enqueued <= t.enqueued
    requires t.processed + InFlight(t.processor) == s.processed + InFlight(s.processor)
    ensures Caching(t, res)
  {
    assert forall r | r in s.enqueued :: r in t.enqueued;
  }

  lemma ProcessorKeeps(s: State, reply: CoverageManagers.Reply, env: Settings)
    requires Invariant(s, env) && ProcessorNext(s, reply, env).Some?
    ensures Invariant(ProcessorNext(s, reply, env).value, env)
  {
    hide ValidCount, Verdicts, Sampling, ProcessLog, Caching, CoverageManagers.Resolve;
    var t := ProcessorNext(s, reply, env).value;
    ProcessLogFrame(s, reply, env);
    SameSampling(s, t, env.threshold, env.kcov);
    match s.processor
    case Waiting =>
      SameVerdicts(s, t);
      Dequeued(s, t, env.res);
    case Resolving(r) =>
      SameVerdicts(s, t);
      CachingStep(s, r, reply, env.res);
    case Logging(r) =>
      VerdictsStep(s, r, t.shared);
      SameCaching(s, t, env.res);
  }

  lemma Dequeued(s: State, t: State, res: nat -> CoverageManagers.Line)
    requires Caching(s, res) && s.processor.Waiting? && t.cached == s.cached && t.enqueued == s.enqueued && t.processed == s.processed
    ensures Caching(t, res)
  {
    var before, after := s.processed + InFlight(s.processor), t.processed + InFlight(t.processor);
    forall a | AskedFor(before, a)
      ensures AskedFor(after, a)
    {
      var r :| r in before && a in r.coverageAddress;
      assert r in after;
    }
  }

  lemma CachingStep(s: State, r: ValidationResult, reply: CoverageManagers.Reply, res: nat -> CoverageManagers.Line)
    requires Caching(s, res) && Fifo(s) && s.processor == Resolving(r)
    ensures Caching(s.(cached := s.cached + CoverageManagers.Resolve(s.cached, r.coverageAddress, res, reply).added, processor := Logging(r)), res)
  {
    hide CoverageManagers.Resolve, NoDuplicates;
    CoverageManagers.CallOnceExactly(s.cached, r.coverageAddress, res, reply);
    assert r in s.processed + [r] && r in s.enqueued;
  }

  lemma ProcessLogFrame(s: State, reply: CoverageManagers.Reply, env: Settings)
    requires ProcessorNext(s, reply, env).Some?
    ensures s.processor.Logging? ==>
              ProcessLog(s.shared, s.processor.r).Some?
              && var t := ProcessLog(s.shared, s.processor.r).value;
                 t.queue == s.shared.queue && t.programsVerified == s.shared.programsVerified && t.validPrograms == s.shared.validPrograms
  {
  }

  lemma SameSampling(s: State, t: State, threshold: int, kcov: bool)
    requires Sampling(s, threshold, kcov) && t.sampled == s.sampled && t.control == s.control
    requires t.shared.programsVerified == s.shared.programsVerified
    ensures Sampling(t, threshold, kcov)
  {
  }

  /** Holds after every interleaving of the two threads. */
  lemma {:induction false} EveryInterleavingKeeps(steps: seq<Step>, env: Settings)
    requires Run(steps, env).Some?
    ensures Invariant(Run(steps, env).value, env)
  {
    hide Invariant, ControlNext, ProcessorNext;
    if steps == [] {
      StartIsSound(env);
    } else {
      var front, last := steps[..|steps| - 1], steps[|steps| - 1];
      EveryInterleavingKeeps(front, env);
      var s := Run(front, env).value;
      match last
      case ControlStep(answer) => ControlKeeps(s, answer, env);
      case ProcessorStep(reply) => ProcessorKeeps(s, reply, env);
    }
  }

  lemma StartIsSound(env: Settings)
    ensures Invariant(Start(), env)
  {
    if env.kcov && env.threshold != 0 {
      UniqueQuotient(0, Abs(env.threshold), 0, 0);
    }
  }

  /** The sum of all verdict counts. */
  ghost function Total(v: map<string, nat>): nat
    decreases |v|
  {
    if v == map[] then 0
    else
      var e :| e in v;
      assert |v - {e}| < |v| by {
        assert v - {e} != v && (v - {e}).Keys == v.Keys - {e} && |v - {e}| == |(v - {e}).Keys| && |v| == |v.Keys|;
      }
      v[e] + Total(v - {e})
  }

  lemma {:induction false} TotalIsSize(v: map<string, nat>, m: multiset<string>)
    requires forall e :: Tally(v, e) == m[e]
    ensures Total(v) == |m|
    decreases |v|
  {
    if v == map[] {
      assert forall e :: m[e] == 0;
      assert m == multiset{};
    } else {
      var e :| e in v && Total(v) == v[e] + Total(v - {e});
      var rest := v - {e};
      assert rest.Keys == v.Keys - {e} && |rest| == |rest.Keys| && |v| == |v.Keys|;
      forall f
        ensures Tally(rest, f) == m[e := 0][f]
      {
        assert Tally(v, f) == m[f];
      }
      TotalIsSize(rest, m[e := 0]);
    }
  }

  /** What a reader of the counters can rely on, at any moment of any run. */
  lemma CountersAreConsistent(steps: seq<Step>, env: Settings)
    requires Run(steps, env).Some?
    ensures var s := Run(steps, env).value;
            && s.shared.validPrograms <= s.shared.programsVerified
            && s.enqueued == s.processed + InFlight(s.processor) + s.shared.queue
            && (env.kcov && env.threshold != 0 && !s.control.Checking? ==> s.sampled == s.shared.programsVerified / Abs(env.threshold))
            && (forall e :: Tally(s.shared.verdicts, e) == multiset(Errors(s.processed))[e])
            && Total(s.shared.verdicts) == Refused(s.processed)
            && s.shared.latestLog == LatestLog(s.processed)
            && (Distinct(s.enqueued) ==> NoDuplicates(s.cached))
  {
    hide Run;
    EveryInterleavingKeeps(steps, env);
    var s := Run(steps, env).value;
    ValidCountBound(s.enqueued);
    TotalIsSize(s.shared.verdicts, multiset(Errors(s.processed)));
  }

  /** The resolver's output for the new addresses of a result breaks off at a line without colon or without address. */
  ghost predicate OutputCrashes(s: State, r: ValidationResult, reply: CoverageManagers.Reply, env: Settings) {
    var unknown := CoverageManagers.Unknown(r.coverageAddress, s.cached);
    && CoverageManagers.AsksNew(s.cached, r.coverageAddress) && reply.Lines?
    && CoverageManagers.OutOfRange(CoverageManagers.Output(unknown, env.res, reply), |unknown|)
  }

  /**
   * A thread panics exactly on a zero threshold to compare with; on an invalid result whose log has one line break or
   * none; or while new addresses are resolved, if the first line that cannot be handled has no colon or no address.
   */
  lemma PanicsExactly(s: State, step: Step, env: Settings)
    ensures Next(s, step, env).None? <==>
            match step
            case ControlStep(_) => s.control.Checking? && env.threshold == 0
            case ProcessorStep(reply) =>
              || (s.processor.Logging? && !s.processor.r.isValid && s.processor.r.verifierLog != "" && Count(s.processor.r.verifierLog, '\n') <= 1)
              || (s.processor.Resolving? && OutputCrashes(s, s.processor.r, reply, env))
  {
    hide VerifierError, CoverageManagers.Resolve;
    if s.processor.Logging? {
      ErrorNeedsTwoLines(s.processor.r.verifierLog);
    }
    if s.processor.Resolving? && step.ProcessorStep? {
      CoverageManagers.StopsExactly(s.cached, s.processor.r.coverageAddress, env.res, step.reply);
    }
  }
}
