/** Go slices of instruction pointers: a window on a shared array, with the in-place rule of `append`. */
module GoSlices {
  import opened Instructions

  /** A heap-allocated instruction message. */
  class Cell {
    var ins: Instruction

    constructor (i: Instruction)
      ensures ins == i
    {
      ins := i;
    }
  }

  datatype Slice = Slice(arr: array<Cell>, off: nat, len: nat, cap: nat) {
    ghost predicate Valid() {
      off + cap <= arr.Length && len <= cap
    }

    ghost function Pointers(): (ps: seq<Cell>)
      requires Valid()
      reads arr
    {
      arr[off..off + len]
    }

    /** `s[:n]` keeps the capacity, `s[n:]` gives the front of it up. */
    function Prefix(n: nat): Slice
      requires n <= len
    {
      Slice(arr, off, n, cap)
    }

    function Suffix(n: nat): Slice
      requires n <= len <= cap
    {
      Slice(arr, off + n, len - n, cap - n)
    }
  }

  lemma PrefixPointers(s: Slice, n: nat)
    requires s.Valid() && n <= s.len
    ensures s.Prefix(n).Valid() && s.Prefix(n).Pointers() == s.Pointers()[..n]
  {
  }

  lemma SuffixPointers(s: Slice, n: nat)
    requires s.Valid() && n <= s.len
    ensures s.Suffix(n).Valid() && s.Suffix(n).Pointers() == s.Pointers()[n..]
  {
  }

  /** The messages behind the pointers. */
  ghost predicate Holds(ps: seq<Cell>, vs: seq<Instruction>)
    reads ps
  {
    |ps| == |vs| && forall k | 0 <= k < |ps| :: ps[k].ins == vs[k]
  }

  /** A new array of at least `need` slots; how many more is up to the runtime. Unused slots hold `filler` in place of nil. */
  method Allocate(need: nat, filler: Cell) returns (a: array<Cell>)
    ensures fresh(a) && a.Length >= need
  {
    var extra :| extra >= 0;
    a := new Cell[need + extra](_ => filler);
  }

  /**
   * `append(s, xs...)`. The elements of xs are read before any write, as memmove does. With room in the array the
   * elements after the slice are overwritten in place, whoever else sees them; otherwise everything moves.
   */
  method Append(s: Slice, xs: seq<Cell>) returns (r: Slice)
    requires s.Valid()
    modifies s.arr
    ensures r.Valid() && r.Pointers() == old(s.Pointers()) + xs
    ensures s.len + |xs| <= s.cap ==> r == Slice(s.arr, s.off, s.len + |xs|, s.cap)
    ensures s.len + |xs| > s.cap ==> fresh(r.arr) && r.off == 0
    ensures forall k | 0 <= k < s.arr.Length ::
              s.arr[k] == if s.len + |xs| <= s.cap && s.off + s.len <= k < s.off + s.len + |xs| then xs[k - s.off - s.len] else old(s.arr[k])
  {
    if s.len + |xs| <= s.cap {
      forall k | 0 <= k < |xs| {
        s.arr[s.off + s.len + k] := xs[k];
      }
      r := Slice(s.arr, s.off, s.len + |xs|, s.cap);
    } else {
      var a := Allocate(s.len + |xs|, xs[0]);
      forall k | 0 <= k < s.len {
        a[k] := s.arr[s.off + k];
      }
      forall k | 0 <= k < |xs| {
        a[s.len + k] := xs[k];
      }
      r := Slice(a, 0, s.len + |xs|, a.Length);
    }
  }

  /** The pointers seen through a slice, as the variadic argument of `append`. */
  method Spread(s: Slice) returns (xs: seq<Cell>)
    requires s.Valid()
    ensures xs == s.Pointers()
  {
    xs := s.arr[s.off..s.off + s.len];
  }

  /** No later element shares the message of the first. */
  ghost predicate FirstUnshared(ps: seq<Cell>) {
    forall k | 0 < k < |ps| :: ps[k] != ps[0]
  }

  /** `duplicateProgram`: a deep copy. Nothing it returns existed before. */
  method DuplicateProgram(prog: Slice, ghost vs: seq<Instruction>) returns (r: Slice)
    requires prog.Valid() && Holds(prog.Pointers(), vs)
    ensures r.Valid() && fresh(r.arr) && fresh(r.Pointers())
    ensures Holds(r.Pointers(), vs) && FirstUnshared(r.Pointers())
  {
    hide FirstUnshared, Holds;
    var a := new Cell[0];
    r := Slice(a, 0, 0, 0);
    var source := Spread(prog);
    NothingShared(r.Pointers(), vs);
    SameLength(source, vs);
    for k := 0 to |source|
      invariant r.Valid() && fresh(r.arr) && r.len == k
      invariant fresh(r.Pointers())
      invariant Holds(r.Pointers(), vs[..k]) && FirstUnshared(r.Pointers())
    {
      ghost var c;
      r, c := AppendClone(r, source[k], vs, k);
    }
    assert vs[..|source|] == vs;
  }

  /** `ret = append(ret, protobuf.Clone(ins))` */
  method AppendClone(s: Slice, ins: Cell, ghost vs: seq<Instruction>, ghost k: nat) returns (r: Slice, ghost c: Cell)
    requires s.Valid() && k < |vs| && ins.ins == vs[k] && Holds(s.Pointers(), vs[..k]) && FirstUnshared(s.Pointers())
    modifies s.arr
    ensures r.Valid() && r.len == s.len + 1 && (r.arr == s.arr || fresh(r.arr))
    ensures Holds(r.Pointers(), vs[..k + 1]) && FirstUnshared(r.Pointers())
    ensures fresh(c) && r.Pointers() == old(s.Pointers()) + [c]
  {
    hide FirstUnshared, Holds;
    ghost var before := s.Pointers();
    var clone := new Cell(ins.ins);
    r := Append(s, [clone]);
    c := clone;
    StillUnshared(before, c);
    HoldsMore(before, c, vs, k);
  }

  lemma SameLength(ps: seq<Cell>, vs: seq<Instruction>)
    requires Holds(ps, vs)
    ensures |ps| == |vs| && forall k | 0 <= k < |ps| :: ps[k].ins == vs[k]
  {
  }

  lemma NothingShared(ps: seq<Cell>, vs: seq<Instruction>)
    requires ps == []
    ensures FirstUnshared(ps) && Holds(ps, vs[..0])
  {
  }

  lemma StillUnshared(ps: seq<Cell>, c: Cell)
    requires FirstUnshared(ps) && c !in ps
    ensures FirstUnshared(ps + [c])
  {
  }

  lemma HoldsMore(ps: seq<Cell>, c: Cell, vs: seq<Instruction>, k: nat)
    requires k < |vs| && Holds(ps, vs[..k]) && c.ins == vs[k]
    ensures Holds(ps + [c], vs[..k + 1])
  {
  }

  /** `InstructionSequence`: a fresh message for each instruction. */
  method Box(vs: seq<Instruction>) returns (r: Slice)
    ensures r.Valid() && fresh(r.arr) && fresh(r.Pointers()) && Holds(r.Pointers(), vs)
  {
    hide Holds, FirstUnshared;
    var a := new Cell[0];
    r := Slice(a, 0, 0, 0);
    NothingShared(r.Pointers(), vs);
    for k := 0 to |vs|
      invariant r.Valid() && fresh(r.arr) && fresh(r.Pointers()) && Holds(r.Pointers(), vs[..k])
    {
      ghost var before := r.Pointers();
      var c := new Cell(vs[k]);
      r := Append(r, [c]);
      HoldsMore(before, c, vs, k);
    }
    assert vs[..|vs|] == vs;
  }

  /** The messages of a slice, as whoever encodes it reads them. */
  method Messages(s: Slice, ghost expected: seq<Instruction>) returns (vs: seq<Instruction>)
    requires s.Valid() && Holds(s.Pointers(), expected)
    ensures vs == expected
  {
    vs := [];
    for k := 0 to s.len
      invariant vs == expected[..k]
    {
      assert s.arr[s.off + k] == s.Pointers()[k];
      vs := vs + [s.arr[s.off + k].ins];
    }
  }
}
