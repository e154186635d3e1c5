/** What the hash functions of the table compute: partial keys mix all eight bytes, and the two buckets of a key differ. */
module Mixing {
  import opened Bits
  import opened Params
  import opened Hashing

  // Home buckets.

  /** The home bucket keeps the low bits of the hash; a hash that is small enough is its own home bucket. */
  lemma HomeIsLowBits(hp: nat, hash: Word)
    ensures IndexHash(hp, hash) == hash % Pow2(hp)
    ensures hash < Pow2(hp) ==> IndexHash(hp, hash) == hash
  {
    AndMask(hash, hp);
    if hash < Pow2(hp) {
      SmallMod(hash, Pow2(hp));
    }
  }

  // Partial keys.

  /** A word folded at bit k: its low k bits combined with the k bits above them. */
  function Fold(x: nat, k: nat): nat {
    Xor(And(x, Pow2(k) - 1), And(Shr(x, k), Pow2(k) - 1))
  }

  lemma Powers()
    ensures Pow2(8) == 0x100 && Pow2(16) == 0x1_0000 && Pow2(32) == 0x1_0000_0000
    ensures Pow2(64) == 0x1_0000_0000_0000_0000
  {
    assert Pow2(4) == 0x10;
    Pow2Add(4, 4);
    Pow2Add(8, 8);
    Pow2Add(16, 16);
    Pow2Add(32, 32);
  }

  lemma PartialIsFolded(hash: Word)
    ensures PartialKey(hash) == Fold(Fold(Fold(hash, 32), 16), 8)
  {
    Powers();
    hide And, Xor, Shr, Pow2;
  }

  lemma FoldXor(a: nat, b: nat, k: nat)
    ensures Fold(Xor(a, b), k) == Xor(Fold(a, k), Fold(b, k))
  {
    hide And, Xor, Shr;
    var m := Pow2(k) - 1;
    AndXor(a, b, m);
    ShrXor(a, b, k);
    AndXor(Shr(a, k), Shr(b, k), m);
    XorSwap(And(a, m), And(b, m), And(Shr(a, k), m), And(Shr(b, k), m));
  }

  /** Folding a byte that lies within the low or the high half moves it to the low half. */
  lemma FoldByte(b: nat, n: nat, k: nat)
    requires b < Pow2(8) && (n + 8 <= k || (k <= n && n + 8 <= 2 * k))
    ensures Fold(b * Pow2(n), k) == b * Pow2(if n < k then n else n - k)
  {
    hide Fold, Pow2;
    if n + 8 <= k {
      ByteBound(b, n, k);
      FoldLow(b * Pow2(n), k);
    } else {
      ByteBound(b, n - k, k);
      MovedDown(b, n, k);
      FoldHigh(b * Pow2(n - k), k);
    }
  }

  lemma MovedDown(b: nat, n: nat, k: nat)
    requires k <= n
    ensures b * Pow2(n) == (b * Pow2(n - k)) * Pow2(k)
  {
    Pow2Add(n - k, k);
    hide Pow2;
    assert b * (Pow2(n - k) * Pow2(k)) == (b * Pow2(n - k)) * Pow2(k);
  }

  lemma FoldLow(x: nat, k: nat)
    requires x < Pow2(k)
    ensures Fold(x, k) == x
  {
    hide And, Shr, Xor, Pow2;
    AndMask(x, k);
    ShrDivides(x, k);
    DivModUnique(x, Pow2(k), 0, x);
    AndMask(0, k);
    SmallMod(0, Pow2(k));
    XorZero(x);
  }

  lemma FoldHigh(y: nat, k: nat)
    requires y < Pow2(k)
    ensures Fold(y * Pow2(k), k) == y
  {
    hide And, Shr, Xor, Pow2;
    AndMask(y * Pow2(k), k);
    ShrDivides(y * Pow2(k), k);
    DivModUnique(y * Pow2(k), Pow2(k), y, 0);
    AndMask(y, k);
    SmallMod(y, Pow2(k));
    XorSymmetric(0, y);
    XorZero(y);
  }

  lemma ByteBound(b: nat, n: nat, k: nat)
    requires b < Pow2(8) && n + 8 <= k
    ensures b * Pow2(n) < Pow2(k)
  {
    TimesIncreasing(b, Pow2(8), Pow2(n));
    Pow2Add(8, n);
    Pow2Increasing(n + 8, k);
  }

  /** The word that has byte b at position j, counted from the lowest byte, and zeros elsewhere. */
  function ByteAt(b: nat, j: nat): nat {
    b * Pow2(8 * j)
  }

  lemma FoldedByte(b: nat, j: nat)
    requires b < 256 && j < 8
    ensures Fold(Fold(Fold(ByteAt(b, j), 32), 16), 8) == b
  {
    Powers();
    hide Fold, Pow2;
    var i := if j < 4 then j else j - 4;
    var h := if i < 2 then i else i - 2;
    FoldByte(b, 8 * j, 32);
    FoldByte(b, 8 * i, 16);
    FoldByte(b, 8 * h, 8);
    OneByte(b);
  }

  lemma OneByte(b: nat)
    ensures b * Pow2(0) == b
  {
  }

  /** Changing a byte of the hash, at any of the eight positions, changes the partial key by the same byte. */
  lemma EveryByteCounts(hash: Word, b: nat, j: nat)
    requires b < 256 && j < 8
    ensures Xor(hash, ByteAt(b, j)) < 0x1_0000_0000_0000_0000
    ensures PartialKey(Xor(hash, ByteAt(b, j))) == Xor(PartialKey(hash), b)
  {
    Powers();
    hide Fold, Pow2, PartialKey;
    var x := ByteAt(b, j);
    ByteBound(b, 8 * j, 64);
    XorBound(hash, x, 64);
    PartialIsFolded(hash);
    PartialIsFolded(Xor(hash, x));
    FoldXor(hash, x, 32);
    FoldXor(Fold(hash, 32), Fold(x, 32), 16);
    FoldXor(Fold(Fold(hash, 32), 16), Fold(Fold(x, 32), 16), 8);
    FoldedByte(b, j);
  }

  /** With no byte set the partial key is zero, so it is the exclusive or of the eight bytes. */
  lemma ZeroPartial()
    ensures PartialKey(0) == 0
  {
    hide Fold, PartialKey;
    PartialIsFolded(0);
    FoldedByte(0, 0);
    assert ByteAt(0, 0) == 0;
  }

  // Alternate buckets.

  lemma TagLow(p: Partial, k: nat)
    requires k <= 64
    ensures TagProduct(p) % Pow2(k) == ((p + 1) * MURMUR) % Pow2(k)
  {
    Powers();
    AndMask((p + 1) * MURMUR, 64);
    ModMod((p + 1) * MURMUR, k, 64);
    hide And, Pow2;
  }

  /** The tag vanishes in the low k bits exactly if p + 1 does. */
  lemma TagVanishes(p: Partial, k: nat)
    ensures TagProduct(p) % Pow2(k) == 0 <==> (p + 1) % Pow2(k) == 0
  {
    hide Pow2;
    if k <= 64 {
      TagLow(p, k);
      OddFactor(p + 1, MURMUR, k);
    } else {
      TagStays(p, k);
    }
  }

  /** The tag has a bit among the lowest nine, so it does not vanish in a table of any greater size. */
  lemma TagStays(p: Partial, k: nat)
    requires k >= 9
    ensures TagProduct(p) % Pow2(k) != 0 && (p + 1) % Pow2(k) != 0
  {
    hide Pow2, TagProduct;
    SmallTag(p);
    TagLow(p, 9);
    OddFactor(p + 1, MURMUR, 9);
    ModMod(TagProduct(p), 9, k);
    ModMod(p + 1, 9, k);
    ZeroMod(Pow2(9));
  }

  lemma ZeroMod(n: nat)
    requires n > 0
    ensures 0 % n == 0
  {
  }

  lemma SmallTag(p: Partial)
    ensures 1 <= p + 1 < Pow2(9) && (p + 1) % Pow2(9) != 0
  {
    Powers();
    assert Pow2(9) == 2 * Pow2(8);
    SmallMod(p + 1, Pow2(9));
  }

  lemma AltIsXor(hp: nat, p: Partial, i: nat)
    requires i < Pow2(hp)
    ensures AltIndex(hp, p, i) == Xor(i, TagProduct(p) % Pow2(hp))
  {
    AltIndexMod(hp, p, i);
    XorMod(i, TagProduct(p), hp);
    SmallMod(i, Pow2(hp));
  }

  /** The two buckets of a key coincide exactly if the bits of its partial key plus one vanish at the size of the table. */
  lemma BucketsCoincide(hp: nat, p: Partial, i: nat)
    requires i < Pow2(hp)
    ensures AltIndex(hp, p, i) == i <==> (p + 1) % Pow2(hp) == 0
  {
    hide AltIndex, TagProduct, Pow2, Xor;
    AltIsXor(hp, p, i);
    XorSelf(i, TagProduct(p) % Pow2(hp));
    TagVanishes(p, hp);
  }

  /** So in a table of 512 buckets or more every key has two different buckets. */
  lemma TwoBucketsApart(hp: nat, p: Partial, i: nat)
    requires hp >= 9 && i < Pow2(hp)
    ensures AltIndex(hp, p, i) != i
  {
    hide AltIndex;
    BucketsCoincide(hp, p, i);
    SmallTag(p);
    Pow2Increasing(9, hp);
    SmallMod(p + 1, Pow2(hp));
  }

  /** In a table of 256 buckets or more different partial keys lead from a bucket to different alternates. */
  lemma AlternatesDiffer(hp: nat, p: Partial, q: Partial, i: nat)
    requires hp >= 8 && i < Pow2(hp) && p != q
    ensures AltIndex(hp, p, i) != AltIndex(hp, q, i)
  {
    hide AltIndex, TagProduct;
    if AltIndex(hp, p, i) == AltIndex(hp, q, i) {
      AltIsXor(hp, p, i);
      AltIsXor(hp, q, i);
      XorInjective(i, TagProduct(p) % Pow2(hp), TagProduct(q) % Pow2(hp));
      ModMod(TagProduct(p), 8, hp);
      ModMod(TagProduct(q), 8, hp);
      if p < q {
        TagsDiffer(q, p);
      } else {
        TagsDiffer(p, q);
      }
    }
  }

  lemma TagsDiffer(p: Partial, q: Partial)
    requires q < p
    ensures TagProduct(p) % Pow2(8) != TagProduct(q) % Pow2(8)
  {
    hide TagProduct, Pow2;
    Powers();
    TagLow(p, 8);
    TagLow(q, 8);
    var x, y := (p + 1) * MURMUR, (q + 1) * MURMUR;
    if x % Pow2(8) == y % Pow2(8) {
      SameRemainder(x, y, Pow2(8));
      assert x - y == (p - q) * MURMUR;
      OddFactor(p - q, MURMUR, 8);
      SmallMod(p - q, Pow2(8));
    }
  }
}
