/** The coverage-guided strategy: scheduling, mutation, emission and feedback. */
module CoverageStrategy {
  import opened Words
  import opened Instructions
  import opened Random
  import opened Generators
  import opened GoSlices
  import opened Mutations
  import opened PriorityQueues
  import opened CoveragePrograms
  import opened CoverageSets
  import opened Protocol
  import opened KernelInterface
  import Sequences

  const MAX_PROG_REUSE: nat := 25

  /** A slice and what its messages say, inside memory that nothing writes any more. */
  ghost predicate Stored(s: Slice, vs: seq<Instruction>, arrays: set<array<Cell>>, cells: set<Cell>)
    reads arrays, cells
  {
    && s.Valid() && s.arr in arrays
    && (forall c | c in s.Pointers() :: c in cells)
    && Holds(s.Pointers(), vs)
  }

  // ---------------------------------------------------------------- the reuse budget

  /** How many draws the queued traces still allow. */
  ghost function Budget(q: seq<CoverageTrace>): int
    reads q
  {
    if q == [] then 0 else Budget(q[..|q| - 1]) + (26 - q[|q| - 1].usageCount)
  }

  lemma {:induction false} BudgetMoves(a: seq<CoverageTrace>, t: CoverageTrace, b: seq<CoverageTrace>)
    ensures Budget(a + [t] + b) == Budget(a + b) + (26 - t.usageCount)
  {
    var s := a + [t] + b;
    if b == [] {
      assert s[..|s| - 1] == a && a + b == a;
    } else {
      var front := b[..|b| - 1];
      BudgetMoves(a, t, front);
      assert s[..|s| - 1] == a + [t] + front;
      assert (a + b)[..|a + b| - 1] == a + front && (a + b)[|a + b| - 1] == b[|b| - 1];
    }
  }

  lemma {:induction false} BudgetPermutes(a: seq<CoverageTrace>, b: seq<CoverageTrace>)
    requires multiset(a) == multiset(b)
    ensures Budget(a) == Budget(b)
  {
    if a == [] {
      assert |multiset(b)| == 0;
    } else {
      var i := Sequences.MatchLast(a, b);
      BudgetPermutes(a[..|a| - 1], b[..i] + b[i + 1..]);
      BudgetMoves(b[..i], b[i], b[i + 1..]);
      assert b == b[..i] + [b[i]] + b[i + 1..];
    }
  }

  lemma {:induction false} BudgetIsLeft(q: seq<CoverageTrace>)
    requires forall t | t in q :: t.usageCount <= MAX_PROG_REUSE
    ensures Budget(q) >= |q|
  {
    if q != [] {
      BudgetIsLeft(q[..|q| - 1]);
    }
  }

  lemma BudgetAdds(q: seq<CoverageTrace>, t: CoverageTrace, r: seq<CoverageTrace>)
    requires multiset(r) == multiset(q) + multiset{t}
    ensures Budget(r) == Budget(q) + (26 - t.usageCount)
  {
    assert multiset(q + [t]) == multiset(r);
    BudgetPermutes(r, q + [t]);
    assert (q + [t])[..|q|] == q;
  }

  ghost predicate Once(q: seq<CoverageTrace>) {
    forall t | t in q :: multiset(q)[t] == 1
  }

  // ---------------------------------------------------------------- what has been seen

  ghost function Covered(ts: seq<CoverageTrace>): set<nat> {
    set t, x | t in ts && x in t.covered :: x
  }

  ghost function Signatures(ts: seq<CoverageTrace>): set<nat> {
    set t | t in ts :: t.signature
  }

  lemma NothingPushed()
    ensures Covered([]) == {} && Signatures([]) == {} && Budget([]) == 0
  {
  }

  lemma CoveredAdds(ts: seq<CoverageTrace>, t: CoverageTrace)
    ensures Covered(ts + [t]) == Covered(ts) + t.covered
    ensures Signatures(ts + [t]) == Signatures(ts) + {t.signature}
  {
    assert forall u :: u in ts + [t] <==> u in ts || u == t;
    forall x | x in t.covered
      ensures x in Covered(ts + [t])
    {
      assert t in ts + [t];
    }
  }

  /** Where the next program comes from: the default one if nothing is queued, else one that covers most. */
  ghost predicate Source(base: seq<Instruction>, q: seq<CoverageTrace>, v: seq<int>) {
    |v| == 9 &&
    if q == [] then base == DefaultProg(v)
    else exists t | t in q :: base == t.snapshot && forall u | u in q :: u.coverageSize <= t.coverageSize
  }

  /** One mutation of the body of a source, the head kept. */
  ghost predicate MutatedFrom(vs: seq<Instruction>, base: seq<Instruction>, m: Mutation<Instruction>) {
    |base| >= HEAD_SIZE && Allowed(m, |base| - HEAD_SIZE) && vs == base[..HEAD_SIZE] + Apply(m, base[HEAD_SIZE..])
  }

  /** The same with the first load's descriptor replaced. */
  ghost predicate PatchedFrom(ps: seq<Instruction>, base: seq<Instruction>, m: Mutation<Instruction>, fd: int) {
    exists vs: seq<Instruction> :: MutatedFrom(vs, base, m) && ps == vs[0 := vs[0].(imm := I32(fd))]
  }

  /** What goes out: the messages of a coverage program that names fd in its first load, and a footer that names it too. */
  ghost predicate Emitted(prog: seq<Instruction>, vs: seq<Instruction>, v: seq<int>, fd: int)
    requires |v| == 9
  {
    && CoverageProgram(vs, v) && vs[0].imm == fd
    && exists reg: nat :: reg <= 9 && prog == vs + Footer(reg, fd)
  }

  lemma RegisterInRange(t: seq<nat>)
    ensures RegisterFrom(t).Some? ==> RegisterFrom(t).value.0 <= 9
  {
  }

  /** The head built by `NewCoverageBasedStrategy`: the code, then one store after another. */
  method BuildDefault(v: seq<int>) returns (r: Slice)
    requires |v| == 9
    ensures r.Valid() && fresh(r.arr) && fresh(r.Pointers()) && Holds(r.Pointers(), DefaultProg(v))
  {
    hide HeadCode, Holds, FirstUnshared, NewStore;
    r := Box(HeadCode(v));
    ghost var all := DefaultProg(v);
    assert all[..17] == HeadCode(v);
    for n := 0 to 63
      invariant r.Valid() && fresh(r.arr) && fresh(r.Pointers()) && Holds(r.Pointers(), all[..17 + n])
    {
      var i := 16 + 8 * n;
      ghost var before := r.Pointers();
      var c := new Cell(NewStore(SIZE_DW, R10, Reg(R0), -i));
      r := Append(r, [c]);
      HoldsMore(before, c, all, 17 + n);
    }
    assert all[..HEAD_SIZE] == all;
  }

  /** `mutatedProgram[0].Immediate = int32(cv.mapFd)` */
  method PatchDescriptor(mutated: Slice, fd: int, ghost vs: seq<Instruction>)
    requires mutated.Valid() && Holds(mutated.Pointers(), vs) && FirstUnshared(mutated.Pointers()) && mutated.len > 0
    modifies mutated.arr[mutated.off]
    ensures |vs| > 0 && Holds(mutated.Pointers(), vs[0 := vs[0].(imm := I32(fd))])
  {
    var first := mutated.arr[mutated.off];
    assert first == mutated.Pointers()[0];
    first.ins := first.ins.(imm := I32(fd));
  }

  /** `append(mutatedProgram, footer...)`: behind the program, in its array if there is room. */
  method AppendFooter(mutated: Slice, footer: seq<Instruction>, ghost vs: seq<Instruction>) returns (prog: seq<Instruction>)
    requires mutated.Valid() && Holds(mutated.Pointers(), vs)
    modifies mutated.arr
    ensures mutated.Pointers() == old(mutated.Pointers()) && Holds(mutated.Pointers(), vs)
    ensures prog == vs + footer
  {
    hide Holds;
    ghost var ps := mutated.Pointers();
    var boxed := Box(footer);
    var xs := Spread(boxed);
    var all := Append(mutated, xs);
    assert mutated.Pointers() == ps;
    HoldsBoth(ps, vs, xs, footer);
    prog := Messages(all, vs + footer);
  }

  lemma HoldsBoth(ps: seq<Cell>, vs: seq<Instruction>, qs: seq<Cell>, ws: seq<Instruction>)
    requires Holds(ps, vs) && Holds(qs, ws)
    ensures Holds(ps + qs, vs + ws)
  {
  }

  /** Patches the descriptor into the first message, then appends the footer. */
  method Assemble(mutated: Slice, reg: nat, fd: int, ghost vs: seq<Instruction>, ghost v: seq<int>)
    returns (prog: seq<Instruction>, ghost patched: seq<Instruction>)
    requires mutated.Valid() && Holds(mutated.Pointers(), vs) && FirstUnshared(mutated.Pointers())
    requires |v| == 9 && CoverageProgram(vs, v) && reg <= 9 && IsI32(fd) && mutated.len > 0
    modifies mutated.arr, mutated.arr[mutated.off]
    ensures mutated.Pointers() == old(mutated.Pointers()) && Holds(mutated.Pointers(), patched)
    ensures |vs| > 0 && patched == vs[0 := vs[0].(imm := I32(fd))] && prog == patched + Footer(reg, fd)
    ensures CoverageProgram(patched, v) && |patched| > 0 && patched[0].imm == fd
  {
    hide CoverageProgram, Footer, Holds, FirstUnshared;
    PatchDescriptor(mutated, fd, vs);
    PatchKeepsCoverageProgram(vs, fd, v);
    patched := vs[0 := vs[0].(imm := I32(fd))];
    prog := AppendFooter(mutated, Footer(reg, fd), patched);
  }

  /** Element 0 of the map must hold the footer's constant. */
  function Verdict(reply: Option<seq<nat>>): Option<bool> {
    if reply.None? || reply.value == [] then None else Some(reply.value[0] == 0xCAFE)
  }

  /** A valid result with coverage that shows a new address or a new fingerprint. */
  ghost predicate Novel(vr: ValidationResult, seen: set<nat>, prints: set<nat>) {
    vr.IsValid() && vr.didCollectCoverage &&
    ((exists a | a in vr.coverageAddress :: a !in seen) || Fingerprint(vr.coverageAddress) !in prints)
  }

  class CoverageBased {
    var isFinished: bool
    const pq: PriorityQueue
    var coverageHashTable: set<nat>
    var fingerprintHashTable: set<nat>
    var programCount: nat
    var validProgramCount: nat
    var lastProgram: Slice
    var mapFd: int
    const defaultProg: Slice

    /** The constants drawn for R1..R9, and the messages of lastProgram. */
    ghost const constants: seq<int>
    ghost var lastMessages: seq<Instruction>
    /** The memory of the default, last and queued programs. */
    ghost var arrays: set<array<Cell>>
    ghost var cells: set<Cell>
    /** Every trace ever pushed as new, and the number of draws from the queue. */
    ghost var pushed: seq<CoverageTrace>
    ghost var draws: nat

    /** Every program still holds the messages it was stored with, and each is the default head and a good body. */
    ghost predicate Memory()
      reads `lastProgram, `lastMessages, `arrays, `cells, pq, arrays, cells
    {
      && |constants| == 9 && pq.Valid()
      && Stored(defaultProg, DefaultProg(constants), arrays, cells)
      && Stored(lastProgram, lastMessages, arrays, cells)
      && forall t | t in pq.q :: Stored(t.program, t.snapshot, arrays, cells) && CoverageProgram(t.snapshot, constants)
    }

    /** Conservation of draws: 26 for every trace ever pushed, either taken or still allowed; no trace beyond its 26. */
    ghost predicate Conserved()
      reads `draws, `pushed, pq, pq.q, pushed
    {
      && Once(pq.q)
      && (forall t | t in pq.q :: t in pushed && t.draws == t.usageCount <= MAX_PROG_REUSE)
      && (forall t | t in pushed :: t.draws <= MAX_PROG_REUSE + 1)
      && draws + Budget(pq.q) == 26 * |pushed|
    }

    /** The tables hold what the pushed traces covered and their fingerprints, and each push made one of them grow. */
    ghost predicate Tables()
      reads `pushed, `coverageHashTable, `fingerprintHashTable
    {
      && coverageHashTable == Covered(pushed) && fingerprintHashTable == Signatures(pushed)
      && |pushed| <= |coverageHashTable| + |fingerprintHashTable|
    }

    ghost predicate Scheduler()
      reads `draws, `pushed, `coverageHashTable, `fingerprintHashTable, pq, pq.q, pushed
    {
      Conserved() && Tables()
    }

    ghost predicate Valid()
      reads `lastProgram, `lastMessages, `arrays, `cells, pq, arrays, cells
      reads `draws, `pushed, `coverageHashTable, `fingerprintHashTable, pq.q, pushed
    {
      Memory() && Scheduler()
    }

    constructor (v: seq<int>)
      requires |v| == 9
      ensures Valid() && constants == v && mapFd == -1 && pq.q == [] && pushed == [] && draws == 0 && !isFinished
      ensures programCount == 0 && validProgramCount == 0 && coverageHashTable == {} && fingerprintHashTable == {} && lastMessages == []
      ensures fresh(pq) && fresh(arrays) && fresh(cells)
    {
      hide DefaultProg, Holds, Memory, Scheduler;
      constants := v;
      isFinished, programCount, validProgramCount, mapFd := false, 0, 0, -1;
      coverageHashTable, fingerprintHashTable := {}, {};
      var queue := new PriorityQueue();
      pq := queue;
      var d := BuildDefault(v);
      defaultProg := d;
      var none := Box([]);
      lastProgram, lastMessages := none, [];
      arrays, cells := {d.arr, none.arr}, set c | c in d.Pointers() + none.Pointers();
      pushed, draws := [], 0;
      new;
      NothingQueued();
    }

    lemma NothingQueued()
      requires |constants| == 9 && pq.q == [] && pushed == [] && draws == 0
      requires coverageHashTable == fingerprintHashTable == {} && pq.Valid()
      requires defaultProg.Valid() && lastProgram.Valid() && {defaultProg.arr, lastProgram.arr} <= arrays
      requires Holds(defaultProg.Pointers(), DefaultProg(constants)) && Holds(lastProgram.Pointers(), lastMessages)
      requires forall c | c in defaultProg.Pointers() + lastProgram.Pointers() :: c in cells
      ensures Valid()
    {
      hide DefaultProg, Holds, CoverageProgram;
      NothingPushed();
      StoredNow(defaultProg, DefaultProg(constants), arrays, cells);
      StoredNow(lastProgram, lastMessages, arrays, cells);
    }

    /** Takes the best trace, counts the use, and puts it back unless it has been used up. */
    method PopAndRequeue() returns (t: CoverageTrace)
      requires pq.Valid() && Conserved() && pq.q != []
      modifies `draws, pq, pq.q
      ensures pq.Valid() && Conserved() && t in old(pq.q) && forall u | u in old(pq.q) :: u.coverageSize <= t.coverageSize
      ensures draws == old(draws) + 1 && t.draws == old(t.draws) + 1
      ensures forall u | u in pq.q :: u in old(pq.q)
      ensures multiset(pq.q) == if old(t.usageCount) < MAX_PROG_REUSE then multiset(old(pq.q)) else multiset(old(pq.q)) - multiset{t}
    {
      hide Budget, HeapOrdered, Once;
      ghost var q0 := pq.q;
      t := pq.Pop();
      ghost var q1 := pq.q;
      BudgetAdds(q1, t, q0);
      FewerMembers(q0, q1, t);
      t.draws, draws := t.draws + 1, draws + 1;
      if t.usageCount < MAX_PROG_REUSE {
        t.usageCount := t.usageCount + 1;
        pq.Push(t);
        BudgetAdds(q1, t, pq.q);
        SameMembers(q0, pq.q);
      }
    }

    /** The draw leaves every stored program alone. */
    method DrawTrace() returns (t: CoverageTrace)
      requires Valid() && pq.q != []
      modifies `draws, pq, pq.q
      ensures Valid() && t in old(pq.q) && forall u | u in old(pq.q) :: u.coverageSize <= t.coverageSize
      ensures draws == old(draws) + 1
      ensures forall u | u in pq.q :: u in old(pq.q)
      ensures Stored(t.program, t.snapshot, arrays, cells) && CoverageProgram(t.snapshot, constants)
    {
      hide Stored, CoverageProgram, DefaultProg, Tables, Conserved, HeapOrdered;
      t := PopAndRequeue();
    }

    lemma Sizes()
      requires Memory()
      ensures |constants| == 9 && defaultProg.len == HEAD_SIZE
    {
    }

    /** A fresh deep copy of the best queued program, or of the default one. */
    method PickProgram() returns (r: Slice, ghost vs: seq<Instruction>)
      requires Valid()
      modifies this`draws, pq, pq.q
      ensures Valid()
      ensures r.Valid() && fresh(r.arr) && fresh(r.Pointers()) && Holds(r.Pointers(), vs) && FirstUnshared(r.Pointers())
      ensures CoverageProgram(vs, constants)
      ensures forall t | t in pq.q :: t in old(pq.q)
      ensures old(pq.q) == [] ==> vs == DefaultProg(constants) && draws == old(draws)
      ensures old(pq.q) != [] ==> draws == old(draws) + 1
      ensures Source(vs, old(pq.q), constants)
    {
      hide CoverageProgram, DefaultProg, Scheduler, Holds, FirstUnshared, HeapOrdered;
      if pq.q == [] {
        vs := DefaultProg(constants);
        DefaultProgIsGood(constants);
        r := DuplicateProgram(defaultProg, vs);
      } else {
        var t := DrawTrace();
        vs := t.snapshot;
        r := DuplicateProgram(t.program, vs);
      }
    }

    /** Picks a program and mutates the copy as the draws say. Everything written is new, so nothing stored can change. */
    method PrepareProgram(rng: Rng) returns (r: Option<Slice>, ghost vs: seq<Instruction>, ghost base: seq<Instruction>, ghost m: Mutation<Instruction>)
      requires Valid()
      modifies this`draws, pq, pq.q, rng
      ensures Valid()
      ensures draws == old(draws) + if old(pq.q) == [] then 0 else 1
      ensures forall t | t in pq.q :: t in old(pq.q)
      ensures Source(base, old(pq.q), constants) && |base| >= HEAD_SIZE
      ensures Follows(MutationFrom(old(rng.tape), |base| - HEAD_SIZE), if r.Some? then Some(m) else None, rng.tape)
      ensures r.Some? ==> r.value.Valid() && fresh(r.value.arr) && fresh(r.value.Pointers())
      ensures r.Some? ==> Holds(r.value.Pointers(), vs) && FirstUnshared(r.value.Pointers())
      ensures r.Some? ==> |constants| == 9 && CoverageProgram(vs, constants) && r.value.len > 0
      ensures r.Some? ==> MutatedFrom(vs, base, m)
      ensures r.Some? ==> r.value.arr !in arrays && r.value.arr[r.value.off] !in cells && fresh(r.value.arr[r.value.off])
    {
      hide CoverageProgram, Scheduler, Memory, Allowed, Apply, Value, Holds, FirstUnshared, Source, MutationFrom;
      Sizes();
      var head;
      head, vs := PickProgram();
      ghost var ps := head.Pointers();
      SameLength(ps, vs);
      CoverageProgramLength(vs, constants);
      base := vs;
      ghost var pm;
      MutationIsAllowed(rng.tape, |base| - HEAD_SIZE);
      r, pm := MutateProgram(head, defaultProg.len, rng);
      m := Value(pm);
      if r.Some? {
        MutatedMessages(ps, vs, pm, constants);
        vs := vs[..HEAD_SIZE] + Apply(m, vs[HEAD_SIZE..]);
        assert r.value.arr[r.value.off] == r.value.Pointers()[0];
      }
    }

    /** Keeps a finished program as `lastProgram`. */
    method Retain(s: Slice, ghost vs: seq<Instruction>)
      requires Valid() && s.Valid() && Holds(s.Pointers(), vs)
      modifies this`lastProgram, this`lastMessages, this`arrays, this`cells
      ensures Valid() && lastProgram == s && lastMessages == vs
    {
      hide CoverageProgram, DefaultProg, Stored, Scheduler, HeapOrdered;
      ghost var a, c := arrays + {s.arr}, cells + set x | x in s.Pointers();
      StoredNow(s, vs, a, c);
      StoredGrows(defaultProg, DefaultProg(constants), arrays, cells, a, c);
      forall t | t in pq.q
        ensures Stored(t.program, t.snapshot, a, c)
      {
        StoredGrows(t.program, t.snapshot, arrays, cells, a, c);
      }
      lastProgram, lastMessages, arrays, cells := s, vs, a, c;
    }

    /** Between rounds: the map is the only descriptor held. */
    ghost predicate AtRest(ffi: FFI)
      reads `mapFd, ffi
    {
      ffi.Valid() && var o := Replay(ffi.log); o.mapFd == mapFd && o.prog < 0 && o.stage == Idle
    }

    /** What the call comes to, once the mutation is made and the new map asked for: the register under test is drawn last. */
    ghost predicate Ends(r: Generated, base: seq<Instruction>, m: Mutation<Instruction>, drawn: Drawn<nat>, tape: seq<nat>)
      reads this
    {
      |constants| == 9 &&
      if mapFd < 0 then r == MapCreationFailed && MutatedFrom(lastMessages, base, m)
      else if drawn.None? then r == NoDraws && tape == [] && MutatedFrom(lastMessages, base, m)
      else && PatchedFrom(lastMessages, base, m, mapFd) && tape == drawn.value.1 && drawn.value.0 <= 9
           && CoverageProgram(lastMessages, constants) && lastMessages[0].imm == mapFd
           && r == Program(lastMessages + Footer(drawn.value.0, mapFd))
    }

    /**
     * One program: a copy of the source, mutated as the draws say, with the fresh map's descriptor patched into its first
     * load, and the footer. The frame says that no stored message or array is written. The source sets `lastProgram`
     * before it patches the descriptor through the same pointer; the stored messages are the patched ones either way.
     */
    method GenerateProgram(ffi: FFI, rng: Rng) returns (r: Generated, ghost base: seq<Instruction>, ghost m: Mutation<Instruction>)
      requires Valid() && AtRest(ffi)
      modifies this, pq, pq.q, ffi, rng
      ensures Valid() && AtRest(ffi)
      ensures Source(base, old(pq.q), constants) && |base| >= HEAD_SIZE
      ensures var d := MutationFrom(old(rng.tape), |base| - HEAD_SIZE);
              if d.None? then r == NoDraws && rng.tape == [] && ffi.log == old(ffi.log) && ffi.calls == old(ffi.calls) && ffi.open == old(ffi.open) && mapFd == old(mapFd)
              else && m == d.value.0 && mapFd == Granted(old(ffi.open) - {old(mapFd)}, ffi.script(old(ffi.calls)).fd)
                   && ffi.log == old(ffi.log) + [Closed(old(mapFd)), MapCreated(mapFd)] && ffi.calls == old(ffi.calls) + 1
                   && ffi.open == old(ffi.open) - {old(mapFd)} + (if mapFd >= 0 then {mapFd} else {})
                   && Ends(r, base, m, RegisterFrom(d.value.1), rng.tape)
      ensures programCount == old(programCount) + 1 && validProgramCount == old(validProgramCount)
      ensures pushed == old(pushed) && coverageHashTable == old(coverageHashTable) && fingerprintHashTable == old(fingerprintHashTable)
      ensures isFinished == old(isFinished) && draws == old(draws) + if old(pq.q) == [] then 0 else 1
      ensures forall t | t in pq.q :: t in old(pq.q)
    {
      hide CoverageProgram, Memory, Scheduler, Holds, FirstUnshared, Ends, AtRest, Source, MutatedFrom, MutationFrom, RegisterFrom, Granted;
      programCount := programCount + 1;
      var mutated;
      ghost var vs;
      mutated, vs, base, m := PrepareProgram(rng);
      if mutated.None? {
        return NoDraws, base, m;
      }
      NewMap(ffi);
      assert fresh(mutated.value.arr[mutated.value.off]);
      r := Finish(mutated.value, vs, base, m, rng);
    }

    /** The rest of `GenerateProgram`, once the old map has been traded for a new one or for an error. */
    method Finish(mutated: Slice, ghost vs: seq<Instruction>, ghost base: seq<Instruction>, ghost m: Mutation<Instruction>, rng: Rng)
      returns (r: Generated)
      requires Valid() && mutated.Valid() && Holds(mutated.Pointers(), vs) && FirstUnshared(mutated.Pointers())
      requires |constants| == 9 && CoverageProgram(vs, constants) && IsI32(mapFd) && MutatedFrom(vs, base, m)
      requires mutated.len > 0 && mutated.arr !in arrays && mutated.arr[mutated.off] !in cells
      modifies `lastProgram, `lastMessages, `arrays, `cells, mutated.arr, mutated.arr[mutated.off], rng
      ensures Valid() && Ends(r, base, m, RegisterFrom(old(rng.tape)), rng.tape)
    {
      hide CoverageProgram, Memory, Scheduler, Holds, FirstUnshared, MutatedFrom, RegisterFrom;
      if mapFd < 0 {
        Retain(mutated, vs);
        return MapCreationFailed;
      }
      var reg := RandomRegister(rng);
      if reg.None? {
        Retain(mutated, vs);
        return NoDraws;
      }
      RegisterInRange(old(rng.tape));
      var prog, patched := Assemble(mutated, reg.value, mapFd, vs, constants);
      Retain(mutated, patched);
      r := Program(prog);
    }

    /** Trades the old map for a new one. */
    method NewMap(ffi: FFI)
      requires AtRest(ffi)
      modifies `mapFd, ffi
      ensures AtRest(ffi) && IsI32(mapFd) && mapFd == Granted(old(ffi.open) - {old(mapFd)}, ffi.script(old(ffi.calls)).fd)
      ensures ffi.log == old(ffi.log) + [Closed(old(mapFd)), MapCreated(mapFd)] && ffi.calls == old(ffi.calls) + 1
      ensures ffi.open == old(ffi.open) - {old(mapFd)} + if mapFd >= 0 then {mapFd} else {}
    {
      hide Lawful, CodeNames;
      ReplayExtends(ffi.log, Closed(mapFd));
      ffi.CloseFD(mapFd);
      ghost var log := ffi.log;
      mapFd := ffi.CreateMapArray();
      ReplayExtends(log, MapCreated(mapFd));
    }

    /** Enters the addresses into the table; true if one of them was not there. */
    method RecordAddresses(addresses: seq<nat>) returns (newAddr: bool)
      modifies `coverageHashTable
      ensures coverageHashTable == old(coverageHashTable) + Elements(addresses)
      ensures newAddr <==> exists a | a in addresses :: a !in old(coverageHashTable)
    {
      newAddr := false;
      for i := 0 to |addresses|
        invariant coverageHashTable == old(coverageHashTable) + Elements(addresses[..i])
        invariant newAddr <==> exists a | a in addresses[..i] :: a !in old(coverageHashTable)
      {
        var addr := addresses[i];
        assert addresses[..i + 1] == addresses[..i] + [addr];
        if addr !in coverageHashTable {
          newAddr := true;
          coverageHashTable := coverageHashTable + {addr};
        }
      }
      assert addresses[..|addresses|] == addresses;
    }

    /** Queues the last program as a new trace. */
    method PushTrace(signature: nat, addresses: seq<nat>)
      requires Memory() && Conserved() && |constants| == 9 && CoverageProgram(lastMessages, constants)
      modifies pq, `pushed
      ensures Memory() && Conserved()
      ensures |pushed| == |old(pushed)| + 1 && pushed[..|old(pushed)|] == old(pushed)
      ensures var t := pushed[|old(pushed)|];
              && fresh(t) && t.program == lastProgram && t.snapshot == lastMessages && t.signature == signature
              && t.covered == Elements(addresses) && t.coverageSize == |addresses| && t.usageCount == 0
              && multiset(pq.q) == multiset(old(pq.q)) + multiset{t} && forall u | u in pq.q :: u in old(pq.q) || u == t
    {
      hide CoverageProgram, DefaultProg, Stored, Budget, HeapOrdered;
      var t := new CoverageTrace(lastProgram, signature, |addresses|, lastMessages, Elements(addresses));
      ghost var q0 := pq.q;
      pq.Push(t);
      BudgetAdds(q0, t, pq.q);
      OneMore(q0, pq.q, t);
      pushed := pushed + [t];
    }

    /**
     * A valid program with coverage is queued, and its execution asked for, exactly when it hit a new address or its
     * fingerprint is new. What it covered is in the tables afterwards.
     */
    method OnVerifyDone(vr: ValidationResult) returns (proceed: bool)
      requires Valid() && |constants| == 9 && CoverageProgram(lastMessages, constants)
      modifies `validProgramCount, `coverageHashTable, `fingerprintHashTable, `pushed, pq
      ensures Valid()
      ensures var judged := vr.IsValid() && vr.didCollectCoverage;
              && (proceed <==> Novel(vr, old(coverageHashTable), old(fingerprintHashTable)))
              && (judged ==> coverageHashTable == old(coverageHashTable) + Elements(vr.coverageAddress)
                             && fingerprintHashTable == old(fingerprintHashTable) + {Fingerprint(vr.coverageAddress)})
              && (!proceed ==> coverageHashTable == old(coverageHashTable) && fingerprintHashTable == old(fingerprintHashTable))
      ensures old(pushed) <= pushed && |pushed| == |old(pushed)| + if proceed then 1 else 0
      ensures proceed ==> var t := pushed[|old(pushed)|];
                          && t.program == lastProgram && t.snapshot == lastMessages
                          && t.signature == Fingerprint(vr.coverageAddress) && t.usageCount == 0
                          && t.coverageSize == |vr.coverageAddress| && multiset(pq.q) == multiset(old(pq.q)) + multiset{t}
      ensures !proceed ==> pq.q == old(pq.q) && pushed == old(pushed)
      ensures validProgramCount == old(validProgramCount) + if vr.IsValid() then 1 else 0
      ensures forall t | t in pq.q :: t in old(pq.q) || fresh(t)
    {
      hide CoverageProgram, Memory, Conserved, Covered, Signatures, Fingerprint, Elements;
      if !vr.IsValid() {
        return false;
      }
      validProgramCount := validProgramCount + 1;
      if !vr.didCollectCoverage {
        return false;
      }
      ghost var c0, f0 := coverageHashTable, fingerprintHashTable;
      var newAddr := RecordAddresses(vr.coverageAddress);
      var fingerPrint := ComputeFingerprint(vr.coverageAddress);
      var newFingerPrint := fingerPrint !in fingerprintHashTable;
      fingerprintHashTable := fingerprintHashTable + {fingerPrint};
      TableGrowth(c0, vr.coverageAddress);
      if newAddr || newFingerPrint {
        PushTrace(fingerPrint, vr.coverageAddress);
        assert pushed == old(pushed) + [pushed[|old(pushed)|]];
        TablesGrow(old(pushed), pushed[|old(pushed)|], vr.coverageAddress);
        return true;
      }
      assert coverageHashTable == c0 && fingerprintHashTable == f0;
      return false;
    }

    /** The verdict on an executed program; None is a panic, on an unreadable reply or on one without elements. */
    method OnExecuteDone(reply: Option<seq<nat>>) returns (ok: Option<bool>)
      modifies `isFinished
      ensures ok == Verdict(reply)
      ensures isFinished == if ok.Some? then !ok.value else old(isFinished)
    {
      if reply.None? || reply.value == [] {
        return None;
      }
      var valid := reply.value[0] == 0xCAFE;
      isFinished := !valid;
      ok := Some(valid);
    }

    /** Over a whole run the queue is drawn from at most 26 times per table entry. */
    lemma DrawsAreBounded()
      requires Valid()
      ensures draws <= 26 * |pushed| <= 26 * (|coverageHashTable| + |fingerprintHashTable|)
      ensures forall t | t in pushed :: t.draws <= 26
    {
      BudgetIsLeft(pq.q);
    }
  }

  lemma TableGrowth(c: set<nat>, addresses: seq<nat>)
    ensures (exists a | a in addresses :: a !in c) ==> |c + Elements(addresses)| >= |c| + 1
    ensures |c + Elements(addresses)| >= |c|
    ensures !(exists a | a in addresses :: a !in c) ==> c + Elements(addresses) == c
  {
    var d := c + Elements(addresses);
    assert d == c + (d - c) && |d| == |c| + |d - c|;
    if a :| a in addresses && a !in c {
      assert a in d - c;
    }
  }

  /** A push goes with a new address or a new fingerprint, so the tables keep up with the number of pushes. */
  lemma TablesGrow(ts: seq<CoverageTrace>, t: CoverageTrace, addresses: seq<nat>)
    requires |ts| <= |Covered(ts)| + |Signatures(ts)| && t.covered == Elements(addresses)
    requires (exists a | a in addresses :: a !in Covered(ts)) || t.signature !in Signatures(ts)
    ensures Covered(ts + [t]) == Covered(ts) + Elements(addresses)
    ensures Signatures(ts + [t]) == Signatures(ts) + {t.signature}
    ensures |ts| + 1 <= |Covered(ts) + Elements(addresses)| + |Signatures(ts) + {t.signature}|
  {
    hide Covered, Signatures, Elements;
    CoveredAdds(ts, t);
    TableGrowth(Covered(ts), addresses);
    var f, x := Signatures(ts), t.signature;
    if x in f {
      assert f + {x} == f;
    } else {
      assert |f + {x}| == |f| + 1;
    }
  }

  lemma StoredNow(s: Slice, vs: seq<Instruction>, a: set<array<Cell>>, c: set<Cell>)
    requires s.Valid() && Holds(s.Pointers(), vs) && s.arr in a && forall x | x in s.Pointers() :: x in c
    ensures Stored(s, vs, a, c)
  {
  }

  lemma StoredGrows(s: Slice, vs: seq<Instruction>, a: set<array<Cell>>, c: set<Cell>, a': set<array<Cell>>, c': set<Cell>)
    requires Stored(s, vs, a, c) && a <= a' && c <= c'
    ensures Stored(s, vs, a', c')
  {
  }

  lemma CoverageProgramLength(vs: seq<Instruction>, v: seq<int>)
    requires |v| == 9 && CoverageProgram(vs, v)
    ensures |vs| >= HEAD_SIZE
  {
  }

  lemma MutatedMessages(ps: seq<Cell>, vs: seq<Instruction>, m: Mutation<Cell>, v: seq<int>)
    requires |v| == 9 && CoverageProgram(vs, v) && Holds(ps, vs) && FirstUnshared(ps) && |ps| == |vs| >= HEAD_SIZE
    requires m.n !in ps && Allowed(Value(m), |ps| - HEAD_SIZE) && Applicable(m, |ps| - HEAD_SIZE)
    ensures Applicable(Value(m), |vs| - HEAD_SIZE)
    ensures var qs, ws := ps[..HEAD_SIZE] + Apply(m, ps[HEAD_SIZE..]), vs[..HEAD_SIZE] + Apply(Value(m), vs[HEAD_SIZE..]);
            Holds(qs, ws) && FirstUnshared(qs) && CoverageProgram(ws, v) && forall k | 0 <= k < |qs| :: qs[k] in ps || qs[k] == m.n
  {
    hide CoverageProgram, Allowed, Value;
    ApplyValues(m, ps[HEAD_SIZE..], vs[HEAD_SIZE..]);
    MutationKeepsCoverageProgram(Value(m), vs, vs[..HEAD_SIZE] + Apply(Value(m), vs[HEAD_SIZE..]), v);
    assert forall c | c in Apply(m, ps[HEAD_SIZE..]) :: c == m.n || c in ps[HEAD_SIZE..];
    var qs := ps[..HEAD_SIZE] + Apply(m, ps[HEAD_SIZE..]);
    forall k | 0 < k < |qs|
      ensures qs[k] != qs[0]
    {
      if k >= HEAD_SIZE {
        assert qs[k] in Apply(m, ps[HEAD_SIZE..]);
      }
    }
  }

  lemma SameMembers(a: seq<CoverageTrace>, b: seq<CoverageTrace>)
    requires multiset(a) == multiset(b) && Once(a)
    ensures Once(b) && forall t | t in b :: t in a
  {
    forall t | t in b
      ensures t in a && multiset(b)[t] == 1
    {
      assert t in multiset(b);
    }
  }

  lemma OneMore(a: seq<CoverageTrace>, b: seq<CoverageTrace>, t: CoverageTrace)
    requires multiset(b) == multiset(a) + multiset{t} && Once(a) && t !in a
    ensures Once(b) && forall u | u in b :: u in a || u == t
  {
    forall u | u in b
      ensures (u in a || u == t) && multiset(b)[u] == 1
    {
      assert u in multiset(b);
      assert t !in multiset(a);
      if u != t {
        assert u in multiset(a) && u in a;
      }
    }
  }

  lemma FewerMembers(a: seq<CoverageTrace>, b: seq<CoverageTrace>, t: CoverageTrace)
    requires multiset(a) == multiset(b) + multiset{t} && Once(a)
    ensures Once(b) && (forall u | u in b :: u in a) && multiset(b) == multiset(a) - multiset{t} && t !in b
  {
    forall u | u in b
      ensures u in a && multiset(b)[u] == 1
    {
      assert u in multiset(b) && u in multiset(a);
    }
    assert t in multiset(a) && t in a;
    assert t !in multiset(b);
  }
}
