/** Byte-level facts about loads and stores. */
module MemoryModel {
  import opened Words
  import opened Machine

  /** Where address x lies in a block starting at a, going round the end of the address space. */
  function Distance(x: int, a: int): nat {
    (x - a) % 0x1_0000_0000_0000_0000
  }

  lemma {:induction false} LittleEndianByte(v: int, n: nat, k: nat)
    requires 0 < k < n
    ensures LittleEndian(v, n)[k] == LittleEndian(v / 0x100, n - 1)[k - 1]
  {
  }

  lemma LittleEndianStep(v: int, n: nat)
    requires n > 0
    ensures LittleEndian(v, n) == [v % 0x100] + LittleEndian(v / 0x100, n - 1)
  {
  }

  lemma LowByte(m: map<Word, Byte>, a: int, n: nat)
    requires n > 0
    ensures Load(m, a, n) % 0x100 == ByteAt(m, a)
  {
  }

  /** A store changes exactly its n bytes. */
  lemma {:induction false} StoreBytes(m: map<Word, Byte>, a: int, v: int, n: nat, x: int)
    requires n <= 0x1_0000
    ensures ByteAt(Store(m, a, v, n), x) == if Distance(x, a) < n then LittleEndian(v, n)[Distance(x, a)] else ByteAt(m, x)
    decreases n
  {
    if n > 0 {
      var m' := m[a % 0x1_0000_0000_0000_0000 := v % 0x100];
      StoreBytes(m', a + 1, v / 0x100, n - 1, x);
      NextDistance(x, a);
      if Distance(x, a) > 0 && Distance(x, a) < n {
        LittleEndianByte(v, n, Distance(x, a));
      }
      assert ByteAt(m', x) == if Distance(x, a) == 0 then v % 0x100 else ByteAt(m, x) by {
        SameAddress(x, a);
      }
    }
  }

  lemma NextDistance(x: int, a: int)
    ensures Distance(x, a) == 0 ==> Distance(x, a + 1) == 0xffff_ffff_ffff_ffff
    ensures Distance(x, a) > 0 ==> Distance(x, a + 1) == Distance(x, a) - 1
  {
  }

  lemma SameAddress(x: int, a: int)
    ensures Distance(x, a) == 0 <==> x % 0x1_0000_0000_0000_0000 == a % 0x1_0000_0000_0000_0000
  {
  }

  /** The n bytes at a. */
  function Block(m: map<Word, Byte>, a: int, n: nat): (s: seq<Byte>)
    ensures |s| == n
    decreases n
  {
    if n == 0 then [] else [ByteAt(m, a)] + Block(m, a + 1, n - 1)
  }

  lemma {:induction false} BlockByte(m: map<Word, Byte>, a: int, n: nat, k: nat)
    requires k < n
    ensures Block(m, a, n)[k] == ByteAt(m, a + k)
    decreases n
  {
    if k > 0 {
      BlockByte(m, a + 1, n - 1, k - 1);
    }
  }

  /** A load is the little-endian reading of its bytes, so two loads agree exactly when all their bytes do. */
  lemma {:induction false} LoadsAgree(m: map<Word, Byte>, a: int, m': map<Word, Byte>, b: int, n: nat)
    ensures Load(m, a, n) == Load(m', b, n) <==> Block(m, a, n) == Block(m', b, n)
    decreases n
  {
    if n > 0 {
      LoadsAgree(m, a + 1, m', b + 1, n - 1);
      var s, t := Block(m, a, n), Block(m', b, n);
      assert s[0] == ByteAt(m, a) && t[0] == ByteAt(m', b);
      assert s[1..] == Block(m, a + 1, n - 1) && t[1..] == Block(m', b + 1, n - 1);
    }
  }

  lemma {:induction false} BlockUnchanged(m: map<Word, Byte>, m': map<Word, Byte>, a: int, n: nat)
    requires forall x | a <= x < a + n :: ByteAt(m', x) == ByteAt(m, x)
    ensures Block(m', a, n) == Block(m, a, n) && Load(m', a, n) == Load(m, a, n)
    decreases n
  {
    if n > 0 {
      assert ByteAt(m', a) == ByteAt(m, a);
      BlockUnchanged(m, m', a + 1, n - 1);
    }
  }

  lemma {:induction false} ZeroLoad(m: map<Word, Byte>, a: int, n: nat, k: nat)
    requires Load(m, a, n) == 0 && k < n
    ensures ByteAt(m, a + k) == 0
    decreases n
  {
    if k > 0 {
      ZeroLoad(m, a + 1, n - 1, k - 1);
    }
  }

  /** What was stored is what is loaded, whatever the width. */
  lemma {:induction false} LoadStored(m: map<Word, Byte>, a: int, v: int, n: nat)
    requires n <= 8
    ensures Block(Store(m, a, v, n), a, n) == LittleEndian(v, n)
  {
    hide Store, Block, LittleEndian, ByteAt;
    var m', b := Store(m, a, v, n), Block(Store(m, a, v, n), a, n);
    forall k | 0 <= k < n
      ensures b[k] == LittleEndian(v, n)[k]
    {
      BlockByte(m', a, n, k);
      StoreBytes(m, a, v, n, a + k);
    }
  }

  lemma {:induction false} LoadIsBlock(m: map<Word, Byte>, a: int, n: nat)
    ensures Load(m, a, n) == FromLittleEndian(Block(m, a, n))
    decreases n
  {
    if n > 0 {
      LoadIsBlock(m, a + 1, n - 1);
      assert Block(m, a, n)[1..] == Block(m, a + 1, n - 1);
    }
  }

  /** Addresses count modulo 2^64. */
  lemma {:induction false} LoadModulo(m: map<Word, Byte>, a: int, b: int, n: nat)
    requires a % 0x1_0000_0000_0000_0000 == b % 0x1_0000_0000_0000_0000
    ensures Load(m, a, n) == Load(m, b, n)
    decreases n
  {
    if n > 0 {
      assert (a + 1) % 0x1_0000_0000_0000_0000 == (b + 1) % 0x1_0000_0000_0000_0000 by {
        SuccessorModulo(a, b);
      }
      LoadModulo(m, a + 1, b + 1, n - 1);
    }
  }

  lemma SuccessorModulo(a: int, b: int)
    requires a % 0x1_0000_0000_0000_0000 == b % 0x1_0000_0000_0000_0000
    ensures (a + 1) % 0x1_0000_0000_0000_0000 == (b + 1) % 0x1_0000_0000_0000_0000
  {
  }

  lemma {:induction false} StoreModulo(m: map<Word, Byte>, a: int, b: int, v: int, n: nat)
    requires a % 0x1_0000_0000_0000_0000 == b % 0x1_0000_0000_0000_0000
    ensures Store(m, a, v, n) == Store(m, b, v, n)
    decreases n
  {
    if n > 0 {
      SuccessorModulo(a, b);
      StoreModulo(m[a % 0x1_0000_0000_0000_0000 := v % 0x100], a + 1, b + 1, v / 0x100, n - 1);
    }
  }
}
