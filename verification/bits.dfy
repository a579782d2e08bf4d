/** Bitwise operators on natural numbers, defined bit by bit. */
module Bits {

  function Pow2(n: nat): (r: nat)
    ensures r >= 1
  {
    if n == 0 then 1 else 2 * Pow2(n - 1)
  }

  /** `x & y` */
  function And(x: nat, y: nat): (r: nat)
    ensures r <= x && r <= y
  {
    if x == 0 || y == 0 then 0
    else (if x % 2 == 1 && y % 2 == 1 then 1 else 0) + 2 * And(x / 2, y / 2)
  }

  /** `x | y` */
  function Or(x: nat, y: nat): nat
    decreases x + y
  {
    if x == 0 && y == 0 then 0
    else (if x % 2 == 1 || y % 2 == 1 then 1 else 0) + 2 * Or(x / 2, y / 2)
  }

  /** `x ^ y` */
  function Xor(x: nat, y: nat): nat
    decreases x + y
  {
    if x == 0 && y == 0 then 0
    else (if x % 2 != y % 2 then 1 else 0) + 2 * Xor(x / 2, y / 2)
  }

  /** `x << k`, before the surrounding conversion cuts the width. */
  function Shl(x: nat, k: nat): nat {
    if k == 0 then x else 2 * Shl(x, k - 1)
  }

  /** `x >> k` */
  function Shr(x: nat, k: nat): nat {
    if k == 0 then x else Shr(x / 2, k - 1)
  }

  /** The low k bits of x. */
  function Low(x: nat, k: nat): nat {
    if k == 0 then 0 else x % 2 + 2 * Low(x / 2, k - 1)
  }

  /** Masking with k ones keeps the low k bits. */
  lemma {:induction false} AndLowMask(x: nat, k: nat)
    ensures And(x, Pow2(k) - 1) == Low(x, k)
  {
    if k > 0 {
      AndLowMask(x / 2, k - 1);
      assert (Pow2(k) - 1) / 2 == Pow2(k - 1) - 1;
      if x == 0 {
        assert And(x / 2, Pow2(k - 1) - 1) == 0;
      }
    }
  }

  /** Masking with a shifted mask only looks at the bits above the shift. */
  lemma {:induction false} AndHighMask(x: nat, m: nat, k: nat)
    ensures And(x, Shl(m, k)) == Shl(And(Shr(x, k), m), k)
  {
    if k > 0 {
      AndHighMask(x / 2, m, k - 1);
      assert Shl(m, k) / 2 == Shl(m, k - 1);
      if x == 0 {
        assert And(x / 2, Shl(m, k - 1)) == 0;
      }
    }
  }

  /** Masking with `ones` one-bits starting at bit k reads that field in place. */
  lemma AndField(x: nat, ones: nat, k: nat, mask: nat)
    requires mask == Shl(Pow2(ones) - 1, k)
    ensures And(x, mask) == Shl(Low(Shr(x, k), ones), k)
  {
    AndHighMask(x, Pow2(ones) - 1, k);
    AndLowMask(Shr(x, k), ones);
  }

  /** Oring values that occupy disjoint bit ranges is addition. */
  lemma {:induction false} OrDisjoint(hi: nat, lo: nat, k: nat)
    requires lo < Pow2(k)
    ensures Or(lo, Shl(hi, k)) == Shl(hi, k) + lo
  {
    if k == 0 {
      OrZero(hi);
    } else {
      OrDisjoint(hi, lo / 2, k - 1);
    }
  }

  lemma {:induction false} OrZero(x: nat)
    ensures Or(0, x) == x
  {
    if x > 0 {
      OrZero(x / 2);
    }
  }

  lemma {:induction false} OrBound(x: nat, y: nat, k: nat)
    requires x < Pow2(k) && y < Pow2(k)
    ensures Or(x, y) < Pow2(k)
  {
    if k > 0 {
      OrBound(x / 2, y / 2, k - 1);
    }
  }

  lemma {:induction false} XorZero(x: nat)
    ensures Xor(x, 0) == x
  {
    if x > 0 {
      XorZero(x / 2);
    }
  }

  lemma {:induction false} XorCommutes(x: nat, y: nat)
    ensures Xor(x, y) == Xor(y, x)
    decreases x + y
  {
    if x != 0 || y != 0 {
      XorCommutes(x / 2, y / 2);
    }
  }

  lemma {:induction false} XorSelf(x: nat)
    ensures Xor(x, x) == 0
  {
    if x != 0 {
      XorSelf(x / 2);
    }
  }

  lemma XorBits(x: nat, y: nat)
    ensures Xor(x, y) % 2 == (if x % 2 != y % 2 then 1 else 0)
    ensures Xor(x, y) / 2 == Xor(x / 2, y / 2)
  {
  }

  lemma {:induction false} XorAssociates(x: nat, y: nat, z: nat)
    ensures Xor(Xor(x, y), z) == Xor(x, Xor(y, z))
    decreases x + y + z
  {
    if x != 0 || y != 0 || z != 0 {
      XorAssociates(x / 2, y / 2, z / 2);
      XorBits(x, y);
      XorBits(y, z);
      XorBits(Xor(x, y), z);
      XorBits(x, Xor(y, z));
    }
  }

  lemma ShiftByFour(x: nat)
    ensures Shl(x, 4) == 16 * x && Shr(x, 4) == x / 16 && Low(x, 4) == x % 16
    ensures Pow2(4) == 16
  {
    assert Shl(x, 1) == 2 * x && Shl(x, 2) == 4 * x && Shl(x, 3) == 8 * x;
    assert Shr(x / 8, 1) == x / 16 && Shr(x / 4, 2) == x / 16;
    assert Low(x / 8, 1) == x / 8 % 2;
    LowTwo(x / 4);
    assert Low(x / 2, 3) == x / 2 % 2 + 2 * Low(x / 4, 2);
    assert x / 2 % 8 == x / 2 % 2 + 2 * (x / 4 % 4) && x % 16 == x % 2 + 2 * (x / 2 % 8);
  }

  lemma LowTwo(x: nat)
    ensures Low(x, 2) == x % 4 && Pow2(2) == 4
  {
    assert Low(x / 2, 1) == x / 2 % 2;
  }

  lemma ShiftByThree(x: nat)
    ensures Shl(x, 3) == 8 * x && Shr(x, 3) == x / 8 && Low(x, 3) == x % 8
    ensures Pow2(3) == 8
  {
    assert Shl(x, 1) == 2 * x && Shl(x, 2) == 4 * x;
    assert Shr(x / 4, 1) == x / 8;
    assert Low(x / 4, 1) == x / 4 % 2;
  }

  lemma ShiftByFive(x: nat)
    ensures Shl(x, 5) == 32 * x && Shr(x, 5) == x / 32 && Pow2(5) == 32
  {
    ShiftByFour(x);
    ShiftByFour(x / 2);
  }

  lemma {:induction false} ShiftAdds(x: nat, j: nat, k: nat)
    ensures Shl(x, j + k) == Shl(Shl(x, j), k)
    ensures Shr(x, j + k) == Shr(Shr(x, j), k)
    ensures Pow2(j + k) == Shl(Pow2(j), k)
    decreases j + k
  {
    if k > 0 {
      ShiftAdds(x, j, k - 1);
    }
    if j > 0 {
      ShiftAdds(x / 2, j - 1, k);
    }
  }

  /** The low bits, in two stretches. */
  lemma {:induction false} LowAdds(x: nat, j: nat, k: nat)
    ensures Low(x, j + k) == Low(x, j) + Shl(Low(Shr(x, j), k), j)
    decreases j
  {
    if j > 0 {
      LowAdds(x / 2, j - 1, k);
    }
  }

  lemma ShiftByEight(x: nat)
    ensures Shl(x, 8) == 0x100 * x && Shr(x, 8) == x / 0x100 && Pow2(8) == 0x100
  {
    ShiftByFour(x);
    ShiftAdds(x, 4, 4);
    ShiftByFour(Shl(x, 4));
    ShiftByFour(Shr(x, 4));
    ShiftByFour(Pow2(4));
  }

  lemma ShiftBySixteen(x: nat)
    ensures Shl(x, 16) == 0x1_0000 * x && Shr(x, 16) == x / 0x1_0000 && Pow2(16) == 0x1_0000
  {
    ShiftByEight(x);
    ShiftAdds(x, 8, 8);
    ShiftByEight(Shl(x, 8));
    ShiftByEight(Shr(x, 8));
    ShiftByEight(Pow2(8));
  }

  lemma ShiftByThirtyTwo(x: nat)
    ensures Shl(x, 32) == 0x1_0000_0000 * x && Shr(x, 32) == x / 0x1_0000_0000 && Pow2(32) == 0x1_0000_0000
  {
    ShiftBySixteen(x);
    ShiftAdds(x, 16, 16);
    ShiftBySixteen(Shl(x, 16));
    ShiftBySixteen(Shr(x, 16));
    ShiftBySixteen(Pow2(16));
  }
}

/** Machine integers: ranges, wrap-around conversions, little-endian bytes. */
module Words {
  type Byte = x: int | 0 <= x < 0x100
  type Word = x: int | 0 <= x < 0x1_0000_0000_0000_0000

  predicate IsI16(x: int) { -0x8000 <= x < 0x8000 }
  predicate IsI32(x: int) { -0x8000_0000 <= x < 0x8000_0000 }
  predicate IsI64(x: int) { -0x8000_0000_0000_0000 <= x < 0x8000_0000_0000_0000 }

  /** Go's conversions to a narrower signed type: the two's-complement reading of the low bits. */
  function I8(x: int): int {
    var u := x % 0x100;
    if u < 0x80 then u else u - 0x100
  }

  function I16(x: int): int {
    var u := x % 0x1_0000;
    if u < 0x8000 then u else u - 0x1_0000
  }

  function I32(x: int): int {
    var u := x % 0x1_0000_0000;
    if u < 0x8000_0000 then u else u - 0x1_0000_0000
  }

  function I64(x: int): int {
    var u := x % 0x1_0000_0000_0000_0000;
    if u < 0x8000_0000_0000_0000 then u else u - 0x1_0000_0000_0000_0000
  }

  /** Go's `%`: the result has the sign of the dividend. */
  function GoMod(x: int, m: int): int
    requires m > 0
  {
    if x >= 0 then x % m else -((-x) % m)
  }

  /** n little-endian bytes of the low bits of x (`binary.Write` with `binary.LittleEndian`). */
  function LittleEndian(x: int, n: nat): (s: seq<Byte>)
    ensures |s| == n
    decreases n
  {
    if n == 0 then [] else [x % 0x100] + LittleEndian(x / 0x100, n - 1)
  }

  function FromLittleEndian(s: seq<Byte>): nat {
    if s == [] then 0 else s[0] + 0x100 * FromLittleEndian(s[1..])
  }
}
