/** Control flow of encoded programs: jumps, paths and termination. */
module ControlFlow {
  import opened Words
  import opened Instructions
  import opened Encoding
  import opened Machine

  predicate IsExit(i: Instruction) {
    i.opcode.JmpOpcode? && i.opcode.op == JMP_EXIT
  }

  /** A jump at i of p goes forward, stays inside p, crosses no wide instruction and does not pass `barrier`. */
  ghost predicate JumpClosed(p: seq<Instruction>, i: nat, barrier: nat)
    requires i < |p|
  {
    var t := i + 1 + p[i].offset;
    && i < t < |p|
    && (i < barrier ==> t <= barrier)
    && forall k | i < k < t :: !IsWide(p[k])
  }

  /** The shape every strategy must produce: closed jumps, and an Exit at the end. */
  ghost predicate Closed(p: seq<Instruction>, barrier: nat) {
    && AllWellFormed(p)
    && |p| > 0 && IsExit(p[|p| - 1])
    && forall i | 0 <= i < |p| && IsJump(p[i]) :: JumpClosed(p, i, barrier)
  }

  // ---------------------------------------------------------------- paths through the bytes

  /** Where instruction i, starting at slot s, can pass control on some input. */
  function Targets(i: Instruction, s: nat): set<int> {
    if IsExit(i) then {}
    else if IsJump(i) && i.opcode.op == JMP_JA then {s + 1 + i.offset}
    else if IsJump(i) then {s + 1, s + 1 + i.offset}
    else {s + Slots(i)}
  }

  function Successors(b: seq<Byte>, s: nat): set<int> {
    match Fetch(b, s)
    case UnknownOpcode => {}
    case Ok(i) => Targets(i, s)
  }

  ghost predicate IsPath(b: seq<Byte>, path: seq<nat>) {
    && |path| > 0 && path[0] == 0
    && forall k | 0 <= k < |path| - 1 :: path[k + 1] in Successors(b, path[k])
  }

  /** Slot s is the first slot of an instruction of p. */
  ghost predicate IsStart(p: seq<Instruction>, s: int) {
    exists i: nat :: i < |p| && SlotOf(p, i) == s
  }

  lemma {:induction false} SlotOfInjective(p: seq<Instruction>, i: nat, j: nat)
    requires i <= |p| && j <= |p|
    ensures i < j <==> SlotOf(p, i) < SlotOf(p, j)
  {
    if i <= j {
      SlotOfMonotone(p, i, j);
    } else {
      SlotOfMonotone(p, j, i);
    }
  }

  lemma ClosedJumpSlots(p: seq<Instruction>, i: nat, barrier: nat)
    requires AllWellFormed(p) && i < |p| && IsJump(p[i]) && JumpClosed(p, i, barrier)
    ensures JumpAgrees(p, i)
  {
    JumpAgreesExactly(p, i);
  }

  lemma ClosedJumpsAgree(p: seq<Instruction>, barrier: nat)
    requires Closed(p, barrier)
    ensures JumpsAgree(p)
  {
    forall i | 0 <= i < |p| && IsJump(p[i])
      ensures JumpAgrees(p, i)
    {
      ClosedJumpSlots(p, i, barrier);
    }
  }

  /** What an edge of the byte-level graph leads to: a later instruction, no further than the barrier. */
  ghost predicate GoodEdge(p: seq<Instruction>, i: nat, barrier: nat, t: int)
    requires i < |p|
  {
    exists j: nat :: i < j < |p| && SlotOf(p, j) == t && (i < barrier ==> j <= barrier)
  }

  lemma TargetCases(i: Instruction, s: nat)
    requires WellFormed(i)
    ensures IsExit(i) <==> Targets(i, s) == {}
    ensures forall t | t in Targets(i, s) :: t == s + Slots(i) || (IsJump(i) && t == s + 1 + i.offset)
  {
    if !IsExit(i) {
      assert s + Slots(i) in Targets(i, s) || s + 1 + i.offset in Targets(i, s);
    }
  }

  lemma JumpEdge(p: seq<Instruction>, barrier: nat, i: nat)
    requires AllWellFormed(p) && i < |p| && IsJump(p[i]) && JumpClosed(p, i, barrier)
    ensures GoodEdge(p, i, barrier, SlotOf(p, i) + 1 + p[i].offset)
  {
    hide WellFormed;
    ClosedJumpSlots(p, i, barrier);
    var j := i + 1 + p[i].offset;
    assert i < j < |p| && SlotOf(p, j) == SlotOf(p, i) + 1 + p[i].offset && (i < barrier ==> j <= barrier);
  }

  lemma FallEdge(p: seq<Instruction>, barrier: nat, i: nat)
    requires i + 1 < |p|
    ensures GoodEdge(p, i, barrier, SlotOf(p, i) + Slots(p[i]))
  {
    assert SlotOf(p, i + 1) == SlotOf(p, i) + Slots(p[i]);
  }

  lemma ClosedEdges(p: seq<Instruction>, barrier: nat, i: nat)
    requires Closed(p, barrier) && AllEncodable(p) && i < |p|
    ensures IsExit(p[i]) <==> Successors(Encode(p, |p|), SlotOf(p, i)) == {}
    ensures forall t | t in Successors(Encode(p, |p|), SlotOf(p, i)) :: GoodEdge(p, i, barrier, t)
  {
    hide Encode, WellFormed, Encodable, Fetch, Targets, GoodEdge, JumpClosed, SlotOf, IsJump;
    FetchEncoded(p, i);
    TargetCases(p[i], SlotOf(p, i));
    if !IsExit(p[i]) {
      FallEdge(p, barrier, i);
    }
    if IsJump(p[i]) {
      JumpEdge(p, barrier, i);
    }
  }

  /** The indices of the instructions a path visits. */
  lemma {:induction false} PathVisits(p: seq<Instruction>, barrier: nat, path: seq<nat>) returns (visited: seq<nat>)
    requires Closed(p, barrier) && AllEncodable(p) && IsPath(Encode(p, |p|), path)
    ensures |visited| == |path|
    ensures forall k | 0 <= k < |path| :: visited[k] < |p| && SlotOf(p, visited[k]) == path[k]
    ensures visited[|visited| - 1] >= |visited| - 1
    ensures forall k | 0 <= k < |path| - 1 :: visited[k] < visited[k + 1] && (visited[k] < barrier ==> visited[k + 1] <= barrier)
  {
    hide Closed, Encode, Encodable, Successors, SlotOf;
    if |path| == 1 {
      PathStart(p, barrier);
      return [0];
    }
    var n := |path| - 1;
    var front := path[..n];
    assert IsPath(Encode(p, |p|), front);
    var v := PathVisits(p, barrier, front);
    var i := v[n - 1];
    assert front[n - 1] == path[n - 1];
    ClosedEdges(p, barrier, i);
    assert path[n - 1 + 1] in Successors(Encode(p, |p|), path[n - 1]);
    assert GoodEdge(p, i, barrier, path[n]);
    var j: nat :| i < j < |p| && SlotOf(p, j) == path[n] && (i < barrier ==> j <= barrier);
    visited := v + [j];
  }

  lemma PathStart(p: seq<Instruction>, barrier: nat)
    requires Closed(p, barrier)
    ensures |p| > 0 && SlotOf(p, 0) == 0
  {
  }

  /**
   * The encoded form is closed. Along every path from slot 0, whatever way the branches go: each slot is the first
   * slot of an instruction and later than the one before; no step passes over the barrier; a path has at most as many
   * steps as there are slots, and it can only stop at an Exit.
   */
  lemma PathsAreClosed(p: seq<Instruction>, barrier: nat, path: seq<nat>)
    requires Closed(p, barrier) && barrier < |p| && AllEncodable(p) && IsPath(Encode(p, |p|), path)
    ensures forall k | 0 <= k < |path| :: IsStart(p, path[k])
    ensures forall k | 0 <= k < |path| - 1 :: path[k] < path[k + 1]
    ensures forall k | 0 <= k < |path| - 1 :: path[k] < SlotOf(p, barrier) ==> path[k + 1] <= SlotOf(p, barrier)
    ensures |path| <= |p| <= SlotOf(p, |p|)
    ensures Successors(Encode(p, |p|), path[|path| - 1]) == {} <==>
            exists e: nat :: e < |p| && IsExit(p[e]) && SlotOf(p, e) == path[|path| - 1]
  {
    var v := PathVisits(p, barrier, path);
    hide Closed, Encode, Encodable, Successors, SlotOf, IsExit;
    forall k | 0 <= k < |path| - 1
      ensures path[k] < path[k + 1] && (path[k] < SlotOf(p, barrier) ==> path[k + 1] <= SlotOf(p, barrier))
    {
      SlotOfInjective(p, v[k], v[k + 1]);
      SlotOfInjective(p, v[k], barrier);
      SlotOfInjective(p, barrier, v[k + 1]);
    }
    var last := v[|v| - 1];
    ClosedEdges(p, barrier, last);
    forall e: nat | e < |p| && SlotOf(p, e) == path[|path| - 1]
      ensures e == last
    {
      SlotOfInjective(p, e, last);
      SlotOfInjective(p, last, e);
    }
  }

  // ---------------------------------------------------------------- every run ends

  /** Execution of i is defined by the semantics for every state. */
  predicate Supported(i: Instruction) {
    match i.opcode
    case AluOpcode(op, _, _) => KnownAlu(op)
    case JmpOpcode(op, _, _) => op == JMP_EXIT || op == JMP_CALL || op == JMP_JA || ConditionalOp(op)
    case MemOpcode(mode, size, cls) =>
      || (cls == CLASS_LD && mode == MODE_IMM && size == SIZE_DW && IsWide(i))
      || (cls == CLASS_LDX && mode == MODE_MEM)
      || (cls == CLASS_ST && mode == MODE_MEM)
      || (cls == CLASS_STX && (mode == MODE_MEM || (mode == MODE_ATOMIC && SimpleAtomic(i.imm))))
    case NoOpcode => false
  }

  ghost predicate AllSupported(p: seq<Instruction>) {
    forall i | 0 <= i < |p| :: Supported(p[i])
  }

  lemma SupportedEffect(w: World, i: Instruction, slot: nat, s: State)
    requires Supported(i)
    ensures !Execute(w, i, slot, s).Fault?
    ensures Execute(w, i, slot, s).Goto? ==> IsJump(i) && Execute(w, i, slot, s).delta == i.offset
    ensures IsExit(i) ==> Execute(w, i, slot, s).Halt?
  {
    hide Taken, Get, Operand, Set, Load, Store, Alu, Alu64, Alu32, Immediate64;
  }

  /** After k steps a closed program has halted, or stands at instruction k or later. */
  lemma {:induction false} ClosedProgress(w: World, p: seq<Instruction>, barrier: nat, k: nat, s: State)
    requires Closed(p, barrier) && AllSupported(p)
    ensures var c := IndexRun(w, p, k, Running(0, s)); c.Halted? || (c.Running? && k <= c.pc < |p|)
  {
    hide Execute, WellFormed, Supported;
    if k > 0 {
      ClosedProgress(w, p, barrier, k - 1, s);
      var c := IndexRun(w, p, k - 1, Running(0, s));
      if c.Running? {
        SupportedEffect(w, p[c.pc], SlotOf(p, c.pc), c.s);
        assert IsJump(p[c.pc]) ==> JumpClosed(p, c.pc, barrier);
      }
    }
  }

  /** Every run of the bytes halts at an Exit, within as many steps as there are slots. */
  lemma EveryRunHalts(w: World, p: seq<Instruction>, barrier: nat, s: State)
    requires Closed(p, barrier) && AllSupported(p) && AllEncodable(p)
    ensures SlotRun(w, Encode(p, |p|), SlotOf(p, |p|), Running(0, s)).Halted?
  {
    hide Closed, AllSupported, AllEncodable, Encode, IndexRun, SlotRun;
    var n := SlotOf(p, |p|);
    ClosedProgress(w, p, barrier, n, s);
    ClosedJumpsAgree(p, barrier);
    ClosedWellFormed(p, barrier);
    SlotExecutionSimulates(w, p, n, Running(0, s));
  }

  lemma ClosedWellFormed(p: seq<Instruction>, barrier: nat)
    requires Closed(p, barrier)
    ensures AllWellFormed(p)
  {
  }

  /** Whenever a closed program still runs it is further on than at any earlier step. */
  lemma {:induction false} CounterGrows(w: World, p: seq<Instruction>, barrier: nat, j: nat, k: nat, s: State)
    requires Closed(p, barrier) && AllSupported(p) && j < k && IndexRun(w, p, k, Running(0, s)).Running?
    ensures IndexRun(w, p, j, Running(0, s)).Running?
    ensures IndexRun(w, p, j, Running(0, s)).pc < IndexRun(w, p, k, Running(0, s)).pc
    decreases k
  {
    hide Execute, WellFormed, Supported;
    ClosedProgress(w, p, barrier, k - 1, s);
    var c := IndexRun(w, p, k - 1, Running(0, s));
    assert c.Running?;
    SupportedEffect(w, p[c.pc], SlotOf(p, c.pc), c.s);
    assert IsJump(p[c.pc]) ==> JumpClosed(p, c.pc, barrier);
    if j < k - 1 {
      CounterGrows(w, p, barrier, j, k - 1, s);
    }
  }

  /** So it is at the barrier at most once, seen from the bytes. */
  lemma BarrierOnce(w: World, p: seq<Instruction>, barrier: nat, j: nat, k: nat, s: State)
    requires Closed(p, barrier) && AllSupported(p) && AllEncodable(p) && barrier < |p|
    requires var c := SlotRun(w, Encode(p, |p|), j, Running(0, s)); c.Running? && c.pc == SlotOf(p, barrier)
    requires var c := SlotRun(w, Encode(p, |p|), k, Running(0, s)); c.Running? && c.pc == SlotOf(p, barrier)
    ensures j == k
  {
    hide Closed, AllSupported, AllEncodable, Encode, IndexRun, SlotRun;
    ClosedJumpsAgree(p, barrier);
    ClosedWellFormed(p, barrier);
    SlotExecutionSimulates(w, p, j, Running(0, s));
    SlotExecutionSimulates(w, p, k, Running(0, s));
    var cj, ck := IndexRun(w, p, j, Running(0, s)), IndexRun(w, p, k, Running(0, s));
    SlotOfInjective(p, cj.pc, barrier);
    SlotOfInjective(p, barrier, cj.pc);
    SlotOfInjective(p, ck.pc, barrier);
    SlotOfInjective(p, barrier, ck.pc);
    if j < k {
      CounterGrows(w, p, barrier, j, k, s);
    } else if k < j {
      CounterGrows(w, p, barrier, k, j, s);
    }
  }

  // ---------------------------------------------------------------- building closed programs from parts

  /** A stretch of code whose jumps land no further than `limit` and cross no wide instruction. */
  ghost predicate SegmentAt(s: seq<Instruction>, i: nat, limit: nat)
    requires i < |s| && limit <= |s|
  {
    && WellFormed(s[i]) && Supported(s[i])
    && (IsJump(s[i]) ==>
          var t := i + 1 + s[i].offset;
          i < t <= limit && forall k | i < k < t :: !IsWide(s[k]))
  }

  ghost predicate Segment(s: seq<Instruction>, limit: nat) {
    limit <= |s| && forall i | 0 <= i < |s| :: SegmentAt(s, i, limit)
  }

  lemma SegmentsJoin(a: seq<Instruction>, b: seq<Instruction>, limit: nat)
    requires Segment(a, |a|) && Segment(b, limit)
    ensures Segment(a + b, |a| + limit)
  {
    hide WellFormed, Supported, IsJump, IsWide;
    var p, end := a + b, |a| + limit;
    forall i | 0 <= i < |p|
      ensures SegmentAt(p, i, end)
    {
      if i < |a| {
        assert SegmentAt(a, i, |a|) && p[i] == a[i];
      } else {
        assert SegmentAt(b, i - |a|, limit) && p[i] == b[i - |a|];
        assert forall k | i < k < |p| :: p[k] == b[k - |a|];
      }
    }
  }

  /** Code of any kind, then a closing part that ends in Exit: a closed program whose barrier is that part. */
  lemma SegmentsClose(a: seq<Instruction>, f: seq<Instruction>)
    requires Segment(a, |a|) && |f| > 0 && Segment(f, |f| - 1) && IsExit(f[|f| - 1])
    ensures Closed(a + f, |a|) && AllSupported(a + f)
  {
    hide WellFormed, Supported, IsJump, IsWide;
    var p := a + f;
    SegmentsJoin(a, f, |f| - 1);
    forall i | 0 <= i < |p|
      ensures WellFormed(p[i]) && Supported(p[i]) && (IsJump(p[i]) ==> JumpClosed(p, i, |a|))
    {
      assert SegmentAt(p, i, |a| + |f| - 1);
      if i < |a| {
        assert SegmentAt(a, i, |a|) && p[i] == a[i];
      }
    }
  }

  lemma StraightLine(s: seq<Instruction>)
    requires forall i | 0 <= i < |s| :: WellFormed(s[i]) && Supported(s[i]) && !IsJump(s[i])
    ensures Segment(s, |s|)
  {
    hide WellFormed, Supported, IsJump, IsWide;
  }
}
