/** The two candidate buckets of a key, the lock of a bucket, and how both behave when the table doubles. */
module Hashing {
  import opened Bits
  import opened Params

  const MURMUR: nat := 0xc6a4a7935bd1e995

  function HashSize(hp: nat): nat {
    Pow2(hp)
  }

  function HashMask(hp: nat): nat {
    HashSize(hp) - 1
  }

  const MASK8: nat := 0xff
  const MASK16: nat := 0xffff
  const MASK32: nat := 0xffff_ffff
  const MASK64: nat := 0xffff_ffff_ffff_ffff

  /** Folds a 64-bit hash to 8 bits: each half of the word is combined with the other by exclusive or. */
  function PartialKey(hash: Word): Partial {
    var h32 := Xor(And(hash, MASK32), And(Shr(hash, 32), MASK32));
    var h16 := Xor(And(h32, MASK16), And(Shr(h32, 16), MASK16));
    ByteXor(h16, Shr(h16, 8));
    Xor(And(h16, MASK8), And(Shr(h16, 8), MASK8))
  }

  lemma ByteXor(x: nat, y: nat)
    ensures Xor(And(x, MASK8), And(y, MASK8)) < 0x100
  {
    assert Pow2(8) == 0x100 by {
      assert Pow2(4) == 0x10;
      Pow2Add(4, 4);
    }
    AndMask(x, 8);
    AndMask(y, 8);
    XorBound(And(x, MASK8), And(y, MASK8), 8);
  }

  function IndexHash(hp: nat, hash: Word): nat {
    And(hash, HashMask(hp))
  }

  /** The 64-bit product of the nonzero tag with the hash constant. */
  function TagProduct(p: Partial): nat {
    And((p + 1) * MURMUR, MASK64)
  }

  function AltIndex(hp: nat, p: Partial, index: nat): nat {
    And(Xor(index, TagProduct(p)), HashMask(hp))
  }

  function LockInd(bucket: nat): nat {
    And(bucket, MaxLocks() - 1)
  }

  function PartialOf(k: Key): Partial {
    PartialKey(Hash(k))
  }

  /** The first and the second bucket a key may be in at hashpower hp. */
  function Home(hp: nat, k: Key): nat {
    IndexHash(hp, Hash(k))
  }

  function Other(hp: nat, k: Key): nat {
    AltIndex(hp, PartialOf(k), Home(hp, k))
  }

  predicate IsCandidate(hp: nat, k: Key, i: nat) {
    i == Home(hp, k) || i == Other(hp, k)
  }

  lemma IndexBound(hp: nat, hash: Word, p: Partial, i: nat)
    ensures IndexHash(hp, hash) < Pow2(hp) && AltIndex(hp, p, i) < Pow2(hp)
  {
    AndMask(hash, hp);
    AndMask(Xor(i, TagProduct(p)), hp);
  }

  lemma AltIndexMod(hp: nat, p: Partial, i: nat)
    ensures AltIndex(hp, p, i) == Xor(i, TagProduct(p)) % Pow2(hp)
  {
    AndMask(Xor(i, TagProduct(p)), hp);
  }

  /** Taking the alternate of the alternate gives back the bucket. */
  lemma AltIndexInvolution(hp: nat, p: Partial, i: nat)
    requires i < Pow2(hp)
    ensures AltIndex(hp, p, AltIndex(hp, p, i)) == i
  {
    AltIndexMod(hp, p, i);
    AltIndexMod(hp, p, AltIndex(hp, p, i));
    MaskedXorCancel(i, TagProduct(p), hp);
  }

  /** From either candidate bucket of a key, its alternate is the other candidate. */
  lemma AltOfCandidate(hp: nat, k: Key, i: nat)
    requires IsCandidate(hp, k, i)
    ensures i < Pow2(hp)
    ensures var j := AltIndex(hp, PartialOf(k), i);
            j < Pow2(hp) && IsCandidate(hp, k, j) && {i, j} == {Home(hp, k), Other(hp, k)}
  {
    IndexBound(hp, Hash(k), PartialOf(k), Home(hp, k));
    AltIndexInvolution(hp, PartialOf(k), Home(hp, k));
  }

  /** The home bucket gains at most the bit 2^hp at the top when the hashpower grows by one. */
  lemma HomeDoubles(hp: nat, k: Key)
    ensures Home(hp + 1, k) % Pow2(hp) == Home(hp, k)
    ensures Home(hp + 1, k) == Home(hp, k) || Home(hp + 1, k) == Home(hp, k) + Pow2(hp)
  {
    AndMask(Hash(k), hp);
    AndMask(Hash(k), hp + 1);
    ModDouble(Hash(k), hp);
  }

  /** So does the other bucket, although it is computed from the grown home bucket. */
  lemma OtherDoubles(hp: nat, k: Key)
    ensures Other(hp + 1, k) % Pow2(hp) == Other(hp, k)
    ensures Other(hp + 1, k) == Other(hp, k) || Other(hp + 1, k) == Other(hp, k) + Pow2(hp)
  {
    var p, i, j := PartialOf(k), Home(hp, k), Home(hp + 1, k);
    var x := Xor(j, TagProduct(p));
    HomeDoubles(hp, k);
    AltIndexMod(hp, p, i);
    AltIndexMod(hp + 1, p, j);
    AltIndexMod(hp, p, j);
    assert i % Pow2(hp) == i by {
      IndexBound(hp, Hash(k), p, i);
      SmallMod(i, Pow2(hp));
    }
    MaskedXorLow(i, j, TagProduct(p), hp);
    ModDouble(x, hp);
  }

  lemma LockIndMod(i: nat)
    ensures LockInd(i) == i % MaxLocks() < MaxLocks()
  {
    AndMask(i, LOCK_POWER);
  }

  /** Buckets share a lock only if they leave the same remainder; as long as there is a lock for every bucket, none do. */
  lemma SharedLock(i: nat, j: nat)
    ensures LockInd(i) == LockInd(j) <==> i % MaxLocks() == j % MaxLocks()
    ensures i < MaxLocks() && j < MaxLocks() ==> (LockInd(i) == LockInd(j) <==> i == j)
  {
    LockIndMod(i);
    LockIndMod(j);
    if i < MaxLocks() && j < MaxLocks() {
      SmallMod(i, MaxLocks());
      SmallMod(j, MaxLocks());
    }
  }

  /** A bucket and the two buckets it splits into share their lock once there are enough buckets. */
  lemma LockIndDoubles(hp: nat, i: nat)
    requires Pow2(hp) >= MaxLocks()
    ensures LockInd(i % Pow2(hp)) == LockInd(i)
  {
    Pow2Increasing(hp, LOCK_POWER);
    LockIndMod(i);
    LockIndMod(i % Pow2(hp));
    ModMod(i, LOCK_POWER, hp);
  }
}
