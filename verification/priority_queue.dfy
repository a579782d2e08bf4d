/** The priority queue of coverage traces: `container/heap` over `PriorityQueueContainer`. */
module PriorityQueues {
  import opened Instructions
  import opened GoSlices

  /** Only `UsageCount` is ever assigned after construction. */
  class CoverageTrace {
    const program: Slice
    const signature: nat
    const coverageSize: nat
    var usageCount: nat
    /** How often the scheduler has drawn this trace. */
    ghost var draws: nat
    /** The messages of `program` when the trace was made, and the addresses it covered. */
    ghost const snapshot: seq<Instruction>
    ghost const covered: set<nat>

    constructor (program: Slice, signature: nat, coverageSize: nat, ghost snapshot: seq<Instruction>, ghost covered: set<nat>)
      ensures this.program == program && this.signature == signature && this.coverageSize == coverageSize && usageCount == 0
      ensures this.snapshot == snapshot && this.covered == covered && draws == 0
    {
      this.program, this.signature, this.coverageSize, usageCount := program, signature, coverageSize, 0;
      this.snapshot, this.covered, draws := snapshot, covered, 0;
    }
  }

  function Parent(j: nat): nat
    requires j > 0
  {
    (j - 1) / 2
  }

  /** The edge from j to its parent respects `Less`: the parent's coverage is at least as large. */
  ghost predicate EdgeOk(q: seq<CoverageTrace>, j: nat)
    requires 0 < j < |q|
  {
    q[Parent(j)].coverageSize >= q[j].coverageSize
  }

  ghost predicate HeapOrdered(q: seq<CoverageTrace>, n: nat)
    requires n <= |q|
  {
    forall j | 0 < j < n :: EdgeOk(q, j)
  }

  /** Heap order except on the edge above j, with the children of j already below j's parent. */
  ghost predicate HeapBut(q: seq<CoverageTrace>, j: nat) {
    && j < |q|
    && (forall k | 0 < k < |q| && k != j :: EdgeOk(q, k))
    && (j > 0 ==> forall k | 0 < k < |q| && Parent(k) == j :: q[Parent(j)].coverageSize >= q[k].coverageSize)
  }

  /** Heap order on the first n except on the edges below i. */
  ghost predicate HeapButBelow(q: seq<CoverageTrace>, i: nat, n: nat) {
    && n <= |q|
    && (forall k | 0 < k < n && Parent(k) != i :: EdgeOk(q, k))
    && (i > 0 ==> forall k | 0 < k < n && Parent(k) == i :: q[Parent(i)].coverageSize >= q[k].coverageSize)
  }

  function Swapped<T>(q: seq<T>, i: nat, j: nat): (r: seq<T>)
    requires i < |q| && j < |q|
    ensures |r| == |q|
    ensures multiset(r) == multiset(q)
  {
    var r := q[i := q[j]][j := q[i]];
    assert multiset(r) == multiset(q) by {
      SwapMultiset(q, i, j);
    }
    r
  }

  lemma SwapMultiset<T>(q: seq<T>, i: nat, j: nat)
    requires i < |q| && j < |q|
    ensures multiset(q[i := q[j]][j := q[i]]) == multiset(q)
  {
    assert multiset(q[i := q[j]]) == multiset(q) - multiset{q[i]} + multiset{q[j]};
  }

  lemma SwapTail<T>(q: seq<T>, i: nat, j: nat, n: nat)
    requires i < n <= |q| && j < n
    ensures Swapped(q, i, j)[n..] == q[n..]
  {
  }

  lemma SwapUp(q: seq<CoverageTrace>, j: nat)
    requires j > 0 && HeapBut(q, j) && !EdgeOk(q, j)
    ensures HeapBut(Swapped(q, Parent(j), j), Parent(j))
  {
    var i, r := Parent(j), Swapped(q, Parent(j), j);
    forall k | 0 < k < |r| && k != i
      ensures EdgeOk(r, k)
    {
      if k != j && Parent(k) == j {
        assert q[Parent(j)].coverageSize >= q[k].coverageSize;
      } else if k != j {
        assert EdgeOk(q, k);
      }
    }
    if i > 0 {
      forall k | 0 < k < |r| && Parent(k) == i
        ensures r[Parent(i)].coverageSize >= r[k].coverageSize
      {
        assert EdgeOk(q, i);
        if k != j {
          assert EdgeOk(q, k);
        }
      }
    }
  }

  /** c is the larger child of i among the first n. */
  ghost predicate LargerChild(q: seq<CoverageTrace>, i: nat, c: nat, n: nat) {
    && 0 < c < n <= |q| && Parent(c) == i
    && forall k | 0 < k < n && Parent(k) == i :: q[c].coverageSize >= q[k].coverageSize
  }

  lemma SwapDown(q: seq<CoverageTrace>, i: nat, c: nat, n: nat)
    requires HeapButBelow(q, i, n) && LargerChild(q, i, c, n) && q[c].coverageSize > q[i].coverageSize
    ensures HeapButBelow(Swapped(q, i, c), c, n)
  {
    var r := Swapped(q, i, c);
    forall k | 0 < k < n && Parent(k) != c
      ensures EdgeOk(r, k)
    {
      if k == i {
        assert q[Parent(i)].coverageSize >= q[c].coverageSize;
      } else if Parent(k) != i {
        assert EdgeOk(q, k);
      }
    }
    forall k | 0 < k < n && Parent(k) == c
      ensures r[Parent(c)].coverageSize >= r[k].coverageSize
    {
      assert EdgeOk(q, k);
    }
  }

  lemma {:induction false} RootIsLargest(q: seq<CoverageTrace>, n: nat, j: nat)
    requires n <= |q| && HeapOrdered(q, n) && j < n
    ensures q[0].coverageSize >= q[j].coverageSize
  {
    if j > 0 {
      assert EdgeOk(q, j);
      RootIsLargest(q, n, Parent(j));
    }
  }

  lemma UpDone(q: seq<CoverageTrace>, j: nat)
    requires HeapBut(q, j) && (j > 0 ==> EdgeOk(q, j))
    ensures HeapOrdered(q, |q|)
  {
  }

  lemma DownDone(q: seq<CoverageTrace>, i: nat, n: nat)
    requires HeapButBelow(q, i, n)
    requires 2 * i + 1 >= n || exists c: nat :: LargerChild(q, i, c, n) && q[c].coverageSize <= q[i].coverageSize
    ensures HeapOrdered(q, n)
  {
  }

  lemma ChildIsLarger(q: seq<CoverageTrace>, i: nat, n: nat, c: nat)
    requires 2 * i + 1 < n <= |q|
    requires c == if 2 * i + 2 < n && q[2 * i + 2].coverageSize > q[2 * i + 1].coverageSize then 2 * i + 2 else 2 * i + 1
    ensures LargerChild(q, i, c, n)
  {
    assert forall k | 0 < k < n && Parent(k) == i :: k == 2 * i + 1 || k == 2 * i + 2;
  }

  lemma PushedLeaf(q: seq<CoverageTrace>, t: CoverageTrace)
    requires HeapOrdered(q, |q|)
    ensures HeapBut(q + [t], |q|)
  {
    forall k | 0 < k < |q|
      ensures EdgeOk(q + [t], k)
    {
      assert EdgeOk(q, k);
    }
  }

  lemma PoppedRoot(q: seq<CoverageTrace>)
    requires |q| > 0 && HeapOrdered(q, |q|)
    ensures HeapButBelow(Swapped(q, 0, |q| - 1), 0, |q| - 1)
    ensures forall u | u in q :: u.coverageSize <= q[0].coverageSize
  {
    var r := Swapped(q, 0, |q| - 1);
    forall k | 0 < k < |q| - 1 && Parent(k) != 0
      ensures EdgeOk(r, k)
    {
      assert EdgeOk(q, k);
    }
    forall u | u in q
      ensures u.coverageSize <= q[0].coverageSize
    {
      var j: nat :| j < |q| && q[j] == u;
      RootIsLargest(q, |q|, j);
    }
  }

  lemma DroppedLast(q: seq<CoverageTrace>)
    requires |q| > 0 && HeapOrdered(q, |q| - 1)
    ensures HeapOrdered(q[..|q| - 1], |q| - 1)
    ensures multiset(q) == multiset(q[..|q| - 1]) + multiset{q[|q| - 1]}
  {
    var r := q[..|q| - 1];
    forall k | 0 < k < |r|
      ensures EdgeOk(r, k)
    {
      assert EdgeOk(q, k);
    }
    assert q == r + [q[|q| - 1]];
  }

  lemma SameSize<T>(a: seq<T>, b: seq<T>)
    requires multiset(a) == multiset(b)
    ensures |a| == |b|
  {
    assert |multiset(a)| == |multiset(b)|;
  }

  class PriorityQueue {
    var q: seq<CoverageTrace>

    /** Heap order: the only thing the queue relies on, and it does not mention `UsageCount`. */
    ghost predicate Valid()
      reads this
    {
      HeapOrdered(q, |q|)
    }

    constructor ()
      ensures Valid() && q == []
    {
      q := [];
    }

    method Swap(i: nat, j: nat)
      requires i < |q| && j < |q|
      modifies this
      ensures q == Swapped(old(q), i, j)
    {
      q := q[i := q[j]][j := q[i]];
    }

    /** `heap.up` */
    method Up(j0: nat)
      requires HeapBut(q, j0)
      modifies this
      ensures Valid() && multiset(q) == multiset(old(q))
    {
      hide HeapOrdered, Swapped;
      var j: nat := j0;
      while true
        invariant HeapBut(q, j) && multiset(q) == multiset(old(q))
        decreases j
      {
        var i := if j == 0 then 0 else Parent(j);
        if i == j || !(q[j].coverageSize > q[i].coverageSize) {
          UpDone(q, j);
          return;
        }
        SwapUp(q, j);
        Swap(i, j);
        j := i;
      }
    }

    /** `heap.down` */
    method Down(i0: nat, n: nat)
      requires n <= |q| && HeapButBelow(q, i0, n)
      modifies this
      ensures |q| == |old(q)| && HeapOrdered(q, n) && multiset(q) == multiset(old(q)) && q[n..] == old(q)[n..]
    {
      hide HeapOrdered, HeapButBelow, LargerChild, Swapped;
      var i: nat := i0;
      while true
        invariant |q| == |old(q)| && HeapButBelow(q, i, n) && multiset(q) == multiset(old(q)) && q[n..] == old(q)[n..]
        decreases n - i
      {
        if 2 * i + 1 >= n {
          DownDone(q, i, n);
          return;
        }
        var c := 2 * i + 1;
        if c + 1 < n && q[c + 1].coverageSize > q[c].coverageSize {
          c := c + 1;
        }
        ChildIsLarger(q, i, n, c);
        if !(q[c].coverageSize > q[i].coverageSize) {
          DownDone(q, i, n);
          return;
        }
        SwapDown(q, i, c, n);
        SwapTail(q, i, c, n);
        Swap(i, c);
        i := c;
      }
    }

    /** `heap.Push` */
    method Push(t: CoverageTrace)
      requires Valid()
      modifies this
      ensures Valid() && multiset(q) == multiset(old(q)) + multiset{t} && |q| == |old(q)| + 1
    {
      hide HeapOrdered, HeapBut;
      PushedLeaf(q, t);
      q := q + [t];
      ghost var pushed := q;
      Up(|q| - 1);
      SameSize(q, pushed);
    }

    /** `heap.Pop`, or nil when empty: removes one trace, and none left covers more. */
    method Pop() returns (t: CoverageTrace?)
      requires Valid()
      modifies this
      ensures Valid()
      ensures t == null <==> old(q) == []
      ensures t == null ==> q == []
      ensures t != null ==> multiset(old(q)) == multiset(q) + multiset{t} && |q| == |old(q)| - 1
      ensures t != null ==> t in old(q) && forall u | u in old(q) :: u.coverageSize <= t.coverageSize
    {
      hide HeapOrdered, HeapButBelow;
      if |q| == 0 {
        return null;
      }
      var n := |q| - 1;
      ghost var root := q[0];
      PoppedRoot(q);
      Swap(0, n);
      ghost var swapped := q;
      assert swapped[n..][0] == root;
      Down(0, n);
      assert q[n..][0] == q[n] == root;
      t := q[n];
      DroppedLast(q);
      q := q[..n];
    }
  }
}
