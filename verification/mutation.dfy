/** `newRandomInstruction`, `handleAddInstruction`, `handleModifyInstruction` and `mutateProgram`. */
module Mutations {
  import opened Words
  import opened Instructions
  import opened Random
  import opened Generators
  import opened GoSlices
  import Machine

  /** What one call of `mutateProgram` does to a body. */
  datatype Mutation<T> = AtFront(n: T) | AtEnd(n: T) | InMiddle(pos: nat, n: T) | Replace(pos: nat, n: T)

  predicate Applicable<T>(m: Mutation<T>, len: nat) {
    match m
    case AtFront(_) => true
    case AtEnd(_) => len > 0
    case InMiddle(pos, _) => 0 < pos < len
    case Replace(pos, _) => pos < len
  }

  /** A middle insertion overwrites the element at pos before it copies the tail, so the new element appears twice. */
  function Apply<T>(m: Mutation<T>, s: seq<T>): (r: seq<T>)
    requires Applicable(m, |s|)
    ensures |s| <= |r| <= |s| + 1
  {
    match m
    case AtFront(n) => [n] + s
    case AtEnd(n) => s + [n]
    case InMiddle(pos, n) => s[..pos] + [n, n] + s[pos + 1..]
    case Replace(pos, n) => s[pos := n]
  }

  /** The bound handed to `newRandomInstruction`. */
  function MaxJmp<T>(m: Mutation<T>, len: nat): nat
    requires Applicable(m, len)
  {
    match m
    case AtFront(_) => if len > 0 then len - 1 else 0
    case AtEnd(_) => 0
    case InMiddle(pos, _) => len - pos - 1
    case Replace(pos, _) => len - pos - 1
  }

  ghost predicate Allowed(m: Mutation<Instruction>, len: nat) {
    Applicable(m, len) && RandomInstruction(m.n, MaxJmp(m, len))
  }

  function Value(m: Mutation<Cell>): Mutation<Instruction>
    reads m.n
  {
    match m
    case AtFront(n) => AtFront(n.ins)
    case AtEnd(n) => AtEnd(n.ins)
    case InMiddle(pos, n) => InMiddle(pos, n.ins)
    case Replace(pos, n) => Replace(pos, n.ins)
  }

  lemma ApplyValues(m: Mutation<Cell>, ps: seq<Cell>, vs: seq<Instruction>)
    requires Applicable(m, |ps|) && Holds(ps, vs)
    ensures Applicable(Value(m), |vs|) && Holds(Apply(m, ps), Apply(Value(m), vs))
  {
  }

  // ---------------------------------------------------------------- jump closure

  /** A jump at i of a body of length len lands inside the body or on the first instruction after it. */
  predicate JumpInBody(i: Instruction, at: nat, len: nat) {
    Machine.IsJump(i) ==> 0 <= i.offset && at + 1 + i.offset <= len
  }

  ghost predicate BodyClosed(body: seq<Instruction>) {
    forall i | 0 <= i < |body| :: JumpInBody(body[i], i, |body|)
  }

  lemma NewJumpInBody(n: Instruction, maxJmp: nat, at: nat, len: nat)
    requires RandomInstruction(n, maxJmp) && maxJmp <= 0x7fff && at + 1 + maxJmp <= len
    ensures JumpInBody(n, at, len)
  {
    if Machine.IsJump(n) {
      RandomInstructionsAreNarrow(n, maxJmp);
      RandomJmpForward(n, maxJmp);
    }
  }

  /** Every mutation of a body of at most 2^15 instructions keeps its jumps inside, the doubled instruction included. */
  lemma MutationKeepsClosure(m: Mutation<Instruction>, body: seq<Instruction>)
    requires Allowed(m, |body|) && BodyClosed(body) && |body| <= 0x8000
    ensures BodyClosed(Apply(m, body))
  {
    hide RandomInstruction, Machine.IsJump;
    var after := Apply(m, body);
    var maxJmp := MaxJmp(m, |body|);
    forall i | 0 <= i < |after|
      ensures JumpInBody(after[i], i, |after|)
    {
      match m
      case AtFront(n) =>
        if i == 0 {
          NewJumpInBody(n, maxJmp, 0, |after|);
        } else {
          assert after[i] == body[i - 1] && JumpInBody(body[i - 1], i - 1, |body|);
        }
      case AtEnd(n) =>
        if i == |body| {
          NewJumpInBody(n, maxJmp, i, |after|);
        } else {
          assert after[i] == body[i] && JumpInBody(body[i], i, |body|);
        }
      case InMiddle(pos, n) =>
        if pos <= i <= pos + 1 {
          assert after[i] == n;
          NewJumpInBody(n, maxJmp, i, |after|);
        } else if i < pos {
          assert after[i] == body[i] && JumpInBody(body[i], i, |body|);
        } else {
          assert after[i] == body[i - 1] && JumpInBody(body[i - 1], i - 1, |body|);
        }
      case Replace(pos, n) =>
        if i == pos {
          NewJumpInBody(n, maxJmp, i, |after|);
        } else {
          assert after[i] == body[i] && JumpInBody(body[i], i, |body|);
        }
    }
  }

  ghost predicate LengthKeepsClosure(len: nat) {
    forall m: Mutation<Instruction>, body: seq<Instruction> | |body| == len && Allowed(m, len) && BodyClosed(body) ::
      BodyClosed(Apply(m, body))
  }

  /** The bound is exact: one instruction more and the int16 cast of an offset can send a jump backwards. */
  lemma ClosureBoundIsExact(len: nat)
    ensures LengthKeepsClosure(len) <==> len <= 0x8000
  {
    if len <= 0x8000 {
      forall m: Mutation<Instruction>, body: seq<Instruction> | |body| == len && Allowed(m, len) && BodyClosed(body)
        ensures BodyClosed(Apply(m, body))
      {
        MutationKeepsClosure(m, body);
      }
    } else {
      var body := seq(len, _ => Mov64(R0, Int32(0)));
      var n := NewJmp(JMP_JEQ, CLASS_JMP, R0, Int32(0), I16(0x8000));
      var m := Replace(0, n);
      assert 1 <= 0x8000 <= len - 1 && n.offset == I16(0x8000) == -0x8000;
      assert RandomJmp(n, len - 1);
      assert Allowed(m, len) && BodyClosed(body);
      assert Apply(m, body)[0] == n && !JumpInBody(n, 0, len);
    }
  }

  // ---------------------------------------------------------------- which mutation the draws decide on

  function AddFrom(t: seq<nat>, len: nat): (d: Drawn<Mutation<Instruction>>) {
    var (v, u) :- RandIntFrom(t);
    var pos := v % (len + 1);
    if pos == 0 then
      var (n, w) :- InstructionFrom(u, if len > 0 then len - 1 else 0);
      Some((AtFront(n), w))
    else if pos == len then
      var (n, w) :- InstructionFrom(u, 0);
      Some((AtEnd(n), w))
    else
      var (n, w) :- InstructionFrom(u, len - pos - 1);
      Some((InMiddle(pos, n), w))
  }

  function ModifyFrom(t: seq<nat>, len: nat): (d: Drawn<Mutation<Instruction>>) {
    if len == 0 then AddFrom(t, len)
    else
      var (v, u) :- RandIntFrom(t);
      var pos := v % len;
      var (n, w) :- InstructionFrom(u, len - pos - 1);
      Some((Replace(pos, n), w))
  }

  function MutationFrom(t: seq<nat>, len: nat): (d: Drawn<Mutation<Instruction>>) {
    var (v, u) :- RandIntFrom(t);
    if v % 2 == 0 then AddFrom(u, len) else ModifyFrom(u, len)
  }

  lemma AddIsAllowed(t: seq<nat>, len: nat)
    ensures AddFrom(t, len).Some? ==> Allowed(AddFrom(t, len).value.0, len)
  {
    hide InstructionFrom, RandomInstruction;
    if RandIntFrom(t).Some? {
      var (v, u) := RandIntFrom(t).value;
      var pos := v % (len + 1);
      InstructionIsRandom(u, if len > 0 then len - 1 else 0);
      InstructionIsRandom(u, 0);
      if pos < len {
        InstructionIsRandom(u, len - pos - 1);
      }
    }
  }

  lemma ModifyIsAllowed(t: seq<nat>, len: nat)
    ensures ModifyFrom(t, len).Some? ==> Allowed(ModifyFrom(t, len).value.0, len)
  {
    hide InstructionFrom, RandomInstruction, AddFrom;
    AddIsAllowed(t, len);
    if len > 0 && RandIntFrom(t).Some? {
      var (v, u) := RandIntFrom(t).value;
      InstructionIsRandom(u, len - v % len - 1);
    }
  }

  lemma MutationIsAllowed(t: seq<nat>, len: nat)
    ensures MutationFrom(t, len).Some? ==> Allowed(MutationFrom(t, len).value.0, len)
  {
    hide Allowed, AddFrom, ModifyFrom;
    if RandIntFrom(t).Some? {
      AddIsAllowed(RandIntFrom(t).value.1, len);
      ModifyIsAllowed(RandIntFrom(t).value.1, len);
    }
  }

  lemma Remainder(x: nat, n: nat)
    requires x < n
    ensures x % n == x
  {
  }

  lemma AddReached(m: Mutation<Instruction>, len: nat, u: seq<nat>, rest: seq<nat>) returns (t: seq<nat>)
    requires Applicable(m, len) && !m.Replace? && len < 0x1_0000_0000_0000_0000
    requires InstructionFrom(u, MaxJmp(m, len)) == Some((m.n, rest))
    ensures AddFrom(t, len) == Some((m, rest))
  {
    hide InstructionFrom, RandIntFrom;
    var pos: nat := if m.AtFront? then 0 else if m.AtEnd? then len else m.pos;
    Remainder(pos, len + 1);
    IntReached(pos, u);
    t := [pos] + u;
  }

  lemma ReplaceReached(m: Mutation<Instruction>, len: nat, u: seq<nat>, rest: seq<nat>) returns (t: seq<nat>)
    requires Applicable(m, len) && m.Replace? && len < 0x1_0000_0000_0000_0000
    requires InstructionFrom(u, MaxJmp(m, len)) == Some((m.n, rest))
    ensures ModifyFrom(t, len) == Some((m, rest))
  {
    hide InstructionFrom, RandIntFrom, AddFrom;
    Remainder(m.pos, len);
    IntReached(m.pos, u);
    t := [m.pos] + u;
  }

  lemma MutationReached(m: Mutation<Instruction>, len: nat, rest: seq<nat>) returns (t: seq<nat>)
    requires Allowed(m, len) && len < 0x1_0000_0000_0000_0000
    ensures MutationFrom(t, len) == Some((m, rest))
  {
    hide InstructionFrom, RandomInstruction, RandIntFrom, AddFrom, ModifyFrom, MaxJmp;
    var u := InstructionReached(m.n, MaxJmp(m, len), rest);
    var w;
    if m.Replace? {
      w := ReplaceReached(m, len, u, rest);
      IntReached(1, w);
      t := [1] + w;
    } else {
      w := AddReached(m, len, u, rest);
      IntReached(0, w);
      t := [0] + w;
    }
  }

  /** Exactly the allowed mutations happen: every operation, every place and every instruction, each on some draws. */
  lemma MutationsExactly(m: Mutation<Instruction>, len: nat, rest: seq<nat>)
    requires len < 0x1_0000_0000_0000_0000
    ensures Allowed(m, len) <==> exists t :: MutationFrom(t, len) == Some((m, rest))
  {
    hide Allowed, MutationFrom;
    if Allowed(m, len) {
      var t := MutationReached(m, len, rest);
    }
    forall t | MutationFrom(t, len).Some?
      ensures Allowed(MutationFrom(t, len).value.0, len)
    {
      MutationIsAllowed(t, len);
    }
  }

  // ---------------------------------------------------------------- the code, on slices

  /** Draws an instruction and boxes it. */
  method NewRandomCell(rng: Rng, maxJmp: nat) returns (r: Option<Cell>)
    modifies rng
    ensures r.Some? ==> fresh(r.value)
    ensures Follows(InstructionFrom(old(rng.tape), maxJmp), if r.Some? then Some(r.value.ins) else None, rng.tape)
  {
    hide InstructionFrom;
    var i :- NewRandomInstruction(rng, maxJmp);
    var c := new Cell(i);
    r := Some(c);
  }

  /** What the two handlers promise: the result is the mutated body, and nothing in front of the body changed. */
  twostate predicate Handled(prog: Slice, new r: Slice, new m: Mutation<Cell>)
    reads prog.arr, r.arr, m.n
  {
    && prog.Valid() && r.Valid()
    && Applicable(m, prog.len) && fresh(m.n)
    && r.Pointers() == Apply(m, old(prog.Pointers()))
    && (r.arr == prog.arr || fresh(r.arr))
    && forall k | 0 <= k < prog.off :: prog.arr[k] == old(prog.arr[k])
  }

  method HandleAddInstruction(prog: Slice, rng: Rng) returns (r: Option<Slice>, ghost m: Mutation<Cell>)
    requires prog.Valid()
    modifies prog.arr, rng
    ensures r.Some? ==> Handled(prog, r.value, m)
    ensures Follows(AddFrom(old(rng.tape), prog.len), if r.Some? then Some(Value(m)) else None, rng.tape)
  {
    hide InstructionFrom, Apply;
    var dummy := new Cell(Exit());
    m := AtFront(dummy);
    var draw := rng.RandInt();
    if draw.None? {
      return None, m;
    }
    var pos := draw.value % (prog.len + 1);
    var maxJmp := if pos == 0 then (if prog.len > 0 then prog.len - 1 else 0)
                  else if pos == prog.len then 0
                  else prog.len - pos - 1;
    var n := NewRandomCell(rng, maxJmp);
    if n.None? {
      return None, m;
    }
    if pos == 0 {
      m := AtFront(n.value);
      var s := InsertAtFront(prog, n.value);
      r := Some(s);
    } else if pos == prog.len {
      m := AtEnd(n.value);
      var s := InsertAtEnd(prog, n.value);
      r := Some(s);
    } else {
      m := InMiddle(pos, n.value);
      var s := InsertInMiddle(prog, pos, n.value);
      r := Some(s);
    }
  }

  /** `append([]*epb.Instruction{n}, prog...)` */
  method InsertAtFront(prog: Slice, n: Cell) returns (r: Slice)
    requires prog.Valid()
    ensures r.Valid() && fresh(r.arr) && r.Pointers() == Apply(AtFront(n), prog.Pointers())
  {
    var a := new Cell[1](_ => n);
    var xs := Spread(prog);
    var one := Slice(a, 0, 1, 1);
    assert one.Pointers() == [n];
    r := Append(one, xs);
  }

  /** `append(prog, n)` */
  method InsertAtEnd(prog: Slice, n: Cell) returns (r: Slice)
    requires prog.Valid() && prog.len > 0
    modifies prog.arr
    ensures r.Valid() && r.Pointers() == Apply(AtEnd(n), old(prog.Pointers()))
    ensures r.arr == prog.arr || fresh(r.arr)
    ensures forall k | 0 <= k < prog.off :: prog.arr[k] == old(prog.arr[k])
  {
    r := Append(prog, [n]);
  }

  /** `append(prog[:pos], n)` never runs out of room, so it writes through to prog. */
  method OverwriteAt(prog: Slice, pos: nat, n: Cell) returns (r: Slice)
    requires prog.Valid() && pos < prog.len
    modifies prog.arr
    ensures r == Slice(prog.arr, prog.off, pos + 1, prog.cap) && prog.Pointers() == old(prog.Pointers())[pos := n]
    ensures forall k | 0 <= k < prog.off :: prog.arr[k] == old(prog.arr[k])
  {
    r := Append(prog.Prefix(pos), [n]);
  }

  /** Only after that write is `prog[pos:]` read, so the tail that is copied starts with n again. */
  method InsertInMiddle(prog: Slice, pos: nat, n: Cell) returns (r: Slice)
    requires prog.Valid() && 0 < pos < prog.len
    modifies prog.arr
    ensures r.Valid() && r.Pointers() == Apply(InMiddle(pos, n), old(prog.Pointers()))
    ensures r.arr == prog.arr || fresh(r.arr)
    ensures forall k | 0 <= k < prog.off :: prog.arr[k] == old(prog.arr[k])
  {
    hide Apply;
    ghost var before := prog.Pointers();
    var newProg := OverwriteAt(prog, pos, n);
    PrefixPointers(prog, pos + 1);
    SuffixPointers(prog, pos);
    var tail := Spread(prog.Suffix(pos));
    r := Append(newProg, tail);
    MiddleShape(before, pos, n);
  }

  lemma MiddleShape<T>(s: seq<T>, pos: nat, n: T)
    requires 0 < pos < |s|
    ensures s[pos := n][..pos + 1] + s[pos := n][pos..] == Apply(InMiddle(pos, n), s)
  {
  }

  method HandleModifyInstruction(prog: Slice, rng: Rng) returns (r: Option<Slice>, ghost m: Mutation<Cell>)
    requires prog.Valid()
    modifies prog.arr, rng
    ensures r.Some? ==> Handled(prog, r.value, m)
    ensures Follows(ModifyFrom(old(rng.tape), prog.len), if r.Some? then Some(Value(m)) else None, rng.tape)
  {
    hide InstructionFrom, Apply, AddFrom;
    if prog.len == 0 {
      r, m := HandleAddInstruction(prog, rng);
      return;
    }
    var dummy := new Cell(Exit());
    m := AtFront(dummy);
    var draw := rng.RandInt();
    if draw.None? {
      return None, m;
    }
    var pos := draw.value % prog.len;
    var n := NewRandomCell(rng, prog.len - pos - 1);
    if n.None? {
      return None, m;
    }
    Assign(prog, pos, n.value);
    m := Replace(pos, n.value);
    r := Some(prog);
  }

  /** `prog[pos] = n` */
  method Assign(prog: Slice, pos: nat, n: Cell)
    requires prog.Valid() && pos < prog.len
    modifies prog.arr
    ensures prog.Pointers() == Apply(Replace(pos, n), old(prog.Pointers()))
    ensures forall k | 0 <= k < prog.off :: prog.arr[k] == old(prog.arr[k])
  {
    prog.arr[prog.off + pos] := n;
  }

  /** For every capacity: the head is untouched, the body is mutated once, and all writes stay in prog's own array or a new one. */
  method MutateProgram(prog: Slice, headSize: nat, rng: Rng) returns (r: Option<Slice>, ghost m: Mutation<Cell>)
    requires prog.Valid() && headSize <= prog.len
    modifies prog.arr, rng
    ensures r.Some? ==> r.value.Valid() && (r.value.arr == prog.arr || fresh(r.value.arr))
    ensures r.Some? ==> Applicable(m, prog.len - headSize) && fresh(m.n)
    ensures Follows(MutationFrom(old(rng.tape), prog.len - headSize), if r.Some? then Some(Value(m)) else None, rng.tape)
    ensures r.Some? ==> r.value.Pointers() == old(prog.Pointers())[..headSize] + Apply(m, old(prog.Pointers())[headSize..])
  {
    hide AddFrom, ModifyFrom, Apply, Value, RandIntFrom;
    var head, body := prog.Prefix(headSize), prog.Suffix(headSize);
    PrefixPointers(prog, headSize);
    SuffixPointers(prog, headSize);
    ghost var headPointers := head.Pointers();
    var draw := rng.RandInt();
    if draw.None? {
      var dummy := new Cell(Exit());
      return None, AtFront(dummy);
    }
    var b: Option<Slice>;
    if draw.value % 2 == 0 {
      b, m := HandleAddInstruction(body, rng);
    } else {
      b, m := HandleModifyInstruction(body, rng);
    }
    if b.None? {
      return None, m;
    }
    assert head.Pointers() == headPointers;
    var xs := Spread(b.value);
    var s := Append(head, xs);
    r := Some(s);
  }
}
