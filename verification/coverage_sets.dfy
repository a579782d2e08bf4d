/** Sequences up to order. */
module Sequences {

  lemma RemoveAt<T>(s: seq<T>, i: nat)
    requires i < |s|
    ensures multiset(s) == multiset(s[..i] + s[i + 1..]) + multiset{s[i]}
  {
    assert s == s[..i] + [s[i]] + s[i + 1..];
  }

  /** A permutation of a nonempty sequence contains its last element, and the rest are permutations of each other. */
  lemma MatchLast<T>(a: seq<T>, b: seq<T>) returns (i: nat)
    requires multiset(a) == multiset(b) && a != []
    ensures i < |b| && b[i] == a[|a| - 1]
    ensures multiset(a[..|a| - 1]) == multiset(b[..i] + b[i + 1..])
  {
    var n := |a| - 1;
    assert a[n] in multiset(b);
    i :| 0 <= i < |b| && b[i] == a[n];
    RemoveAt(b, i);
    RemoveAt(a, n);
    assert a[..n] + a[n + 1..] == a[..n];
    assert multiset(a[..n]) == multiset(a) - multiset{a[n]};
    assert multiset(b[..i] + b[i + 1..]) == multiset(b) - multiset{a[n]};
  }
}

/** Coverage address lists: de-duplication and the XOR fingerprint. */
module CoverageSets {
  import Bits
  import Sequences

  ghost predicate NoDuplicates<T>(s: seq<T>) {
    forall i, j | 0 <= i < j < |s| :: s[i] != s[j]
  }

  ghost function Elements<T>(s: seq<T>): set<T> {
    set x | x in s
  }

  /** The addresses of the first n samples, in order of first appearance. */
  function FirstSeen(samples: seq<nat>, n: nat): seq<nat>
    requires n <= |samples|
  {
    if n == 0 then []
    else
      var front := FirstSeen(samples, n - 1);
      if samples[n - 1] in front then front else front + [samples[n - 1]]
  }

  lemma {:induction false} FirstSeenElements(samples: seq<nat>, n: nat)
    requires n <= |samples|
    ensures NoDuplicates(FirstSeen(samples, n))
    ensures Elements(FirstSeen(samples, n)) == Elements(samples[..n])
  {
    if n > 0 {
      FirstSeenElements(samples, n - 1);
      var front, x := FirstSeen(samples, n - 1), samples[n - 1];
      assert samples[..n] == samples[..n - 1] + [x];
      assert x in front <==> x in Elements(front);
      assert Elements(samples[..n]) == Elements(samples[..n - 1]) + {x};
      assert Elements(front + [x]) == Elements(front) + {x};
    }
  }

  /** The loop of `get_coverage_and_free_resources`: each address once, none lost, none invented. */
  method Deduplicate(samples: seq<nat>) returns (addresses: seq<nat>)
    ensures addresses == FirstSeen(samples, |samples|)
    ensures NoDuplicates(addresses) && Elements(addresses) == Elements(samples)
  {
    var seen: set<nat> := {};
    addresses := [];
    for i := 0 to |samples|
      invariant addresses == FirstSeen(samples, i)
      invariant forall x :: x in seen <==> x in addresses
    {
      var addr := samples[i];
      if addr !in seen {
        addresses := addresses + [addr];
        seen := seen + {addr};
      }
    }
    FirstSeenElements(samples, |samples|);
    assert samples[..|samples|] == samples;
  }

  /** Xor of all addresses, in the order of the loop. */
  function Fingerprint(s: seq<nat>): nat {
    if s == [] then 0 else Bits.Xor(Fingerprint(s[..|s| - 1]), s[|s| - 1])
  }

  method ComputeFingerprint(addresses: seq<nat>) returns (fingerPrint: nat)
    ensures fingerPrint == Fingerprint(addresses)
  {
    fingerPrint := 0;
    for i := 0 to |addresses|
      invariant fingerPrint == Fingerprint(addresses[..i])
    {
      assert addresses[..i + 1][..i] == addresses[..i];
      fingerPrint := Bits.Xor(fingerPrint, addresses[i]);
    }
    assert addresses[..|addresses|] == addresses;
  }

  /** Bit k of a number. */
  function Bit(x: nat, k: nat): nat {
    Bits.Shr(x, k) % 2
  }

  lemma {:induction false} XorBit(x: nat, y: nat, k: nat)
    ensures Bit(Bits.Xor(x, y), k) == (Bit(x, k) + Bit(y, k)) % 2
  {
    Bits.XorBits(x, y);
    if k > 0 {
      XorBit(x / 2, y / 2, k - 1);
    }
  }

  /** How many of the addresses have bit k. */
  function WithBit(s: seq<nat>, k: nat): nat {
    if s == [] then 0 else WithBit(s[..|s| - 1], k) + Bit(s[|s| - 1], k)
  }

  /** The fingerprint, bit by bit: the parity of the number of addresses that have the bit. */
  lemma {:induction false} FingerprintParity(s: seq<nat>, k: nat)
    ensures Bit(Fingerprint(s), k) == WithBit(s, k) % 2
  {
    hide Bits.Xor, Bits.Shr;
    if s == [] {
      ZeroBit(k);
    } else {
      FingerprintParity(s[..|s| - 1], k);
      XorBit(Fingerprint(s[..|s| - 1]), s[|s| - 1], k);
    }
  }

  lemma {:induction false} ZeroBit(k: nat)
    ensures Bit(0, k) == 0
  {
    if k > 0 {
      ZeroBit(k - 1);
    }
  }

  lemma {:induction false} FingerprintMoves(a: seq<nat>, x: nat, b: seq<nat>)
    ensures Fingerprint(a + [x] + b) == Bits.Xor(Fingerprint(a + b), x)
  {
    hide Bits.Xor;
    var s := a + [x] + b;
    if b == [] {
      assert s == a + [x] && s[..|s| - 1] == a && a + b == a;
    } else {
      var n := |b| - 1;
      var front, y := b[..n], b[n];
      FingerprintMoves(a, x, front);
      assert s[..|s| - 1] == a + [x] + front && s[|s| - 1] == y;
      assert (a + b)[..|a + b| - 1] == a + front && (a + b)[|a + b| - 1] == y;
      var f := Fingerprint(a + front);
      Bits.XorAssociates(f, x, y);
      Bits.XorCommutes(x, y);
      Bits.XorAssociates(f, y, x);
    }
  }

  lemma {:induction false} FingerprintPermutes(a: seq<nat>, b: seq<nat>)
    requires multiset(a) == multiset(b)
    ensures Fingerprint(a) == Fingerprint(b)
  {
    if a == [] {
      assert |multiset(b)| == 0;
    } else {
      var i := Sequences.MatchLast(a, b);
      var x, b1, b2 := a[|a| - 1], b[..i], b[i + 1..];
      FingerprintPermutes(a[..|a| - 1], b1 + b2);
      FingerprintMoves(b1, x, b2);
      assert b == b1 + [x] + b2;
    }
  }

  lemma SetMultiset<T>(a: seq<T>)
    requires NoDuplicates(a)
    ensures multiset(a) == multiset(Elements(a))
  {
    if a != [] {
      var n := |a| - 1;
      SetMultiset(a[..n]);
      assert a == a[..n] + [a[n]];
      assert Elements(a) == Elements(a[..n]) + {a[n]} && a[n] !in Elements(a[..n]);
    }
  }

  /** After de-duplication the fingerprint is a function of the set of addresses, not of their order or number of hits. */
  lemma FingerprintOfSet(s: seq<nat>, t: seq<nat>)
    requires Elements(s) == Elements(t)
    ensures Fingerprint(FirstSeen(s, |s|)) == Fingerprint(FirstSeen(t, |t|))
  {
    FirstSeenElements(s, |s|);
    FirstSeenElements(t, |t|);
    assert s[..|s|] == s && t[..|t|] == t;
    SetMultiset(FirstSeen(s, |s|));
    SetMultiset(FirstSeen(t, |t|));
    FingerprintPermutes(FirstSeen(s, |s|), FirstSeen(t, |t|));
  }

  /** Without it, a second hit of the same address erases the first. */
  lemma RepeatedHitsCancel(s: seq<nat>, x: nat)
    ensures Fingerprint(s + [x, x]) == Fingerprint(s)
  {
    hide Bits.Xor;
    var one := s + [x];
    assert (s + [x, x])[..|s| + 1] == one && one[..|s|] == s;
    Bits.XorAssociates(Fingerprint(s), x, x);
    Bits.XorSelf(x);
    Bits.XorZero(Fingerprint(s));
  }
}
