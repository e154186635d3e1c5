/** Moving whole stripes, and whole tables, bucket by bucket. */
module Migration {
  import opened Bits
  import opened Params
  import opened Hashing
  import opened Rows
  import opened Doubling
  import opened Container
  import opened Mover

  /** The old bucket that bucket r of the doubled table is filled from. */
  function Parent(hp: nat, r: nat): nat {
    if r < HashSize(hp) then r else r - HashSize(hp)
  }

  /** The new table after every bucket whose parent is selected has been filled from it. */
  ghost function Filled(rows: Table, hp: nat, past: Table, chosen: iset<nat>): (t: Table)
    requires Shaped(past, hp) && |rows| == Pow2(hp + 1)
    ensures |t| == |rows|
    ensures forall r | 0 <= r < |t| :: t[r] == if Parent(hp, r) in chosen then NewBucket(hp, past, r) else rows[r]
  {
    seq(|rows|, r requires 0 <= r < |rows| => if Parent(hp, r) in chosen then NewBucket(hp, past, r) else rows[r])
  }

  /** Moving one more old bucket. */
  lemma FilledStep(rows: Table, hp: nat, past: Table, chosen: iset<nat>, ind: nat)
    requires Shaped(past, hp) && |rows| == Pow2(hp + 1) && ind < |past|
    ensures ind + HashSize(hp) < |rows|
    ensures BucketMoved(Filled(rows, hp, past, chosen), hp, ind, past[ind]) == Filled(rows, hp, past, chosen + iset{ind})
  {
    var a := BucketMoved(Filled(rows, hp, past, chosen), hp, ind, past[ind]);
    var b := Filled(rows, hp, past, chosen + iset{ind});
    forall r | 0 <= r < |rows|
      ensures a[r] == b[r]
    {
      hide LowBucket, HighBucket;
    }
  }

  ghost predicate BothEmpty(t: Table, hp: nat, ind: nat) {
    && ind + HashSize(hp) < |t|
    && t[ind] == EmptyBucket() && t[ind + HashSize(hp)] == EmptyBucket()
  }

  /** The old buckets below n whose lock is l. */
  ghost function StripeBelow(l: nat, n: nat): iset<nat> {
    iset i: nat | i < n && LockInd(i) == l
  }

  /** From a bucket of stripe l, the next bucket of the stripe is MaxLocks() further on. */
  lemma StripeStep(l: nat, ind: nat)
    requires LockInd(ind) == l
    ensures LockInd(ind + MaxLocks()) == l
    ensures StripeBelow(l, ind + MaxLocks()) == StripeBelow(l, ind) + iset{ind}
  {
    LockIndMod(ind);
    LockIndMod(ind + MaxLocks());
    NextCongruent(ind, MaxLocks());
    forall i: nat | ind < i < ind + MaxLocks()
      ensures LockInd(i) != l
    {
      LockIndMod(i);
      CloseNotCongruent(ind, i, MaxLocks());
    }
    hide LockInd;
  }

  lemma StripeStart(l: nat)
    requires l < MaxLocks()
    ensures LockInd(l) == l && StripeBelow(l, l) == iset{}
  {
    LockIndMod(l);
    SmallMod(l, MaxLocks());
    forall i: nat | i < l
      ensures LockInd(i) != l
    {
      LockIndMod(i);
      SmallMod(i, MaxLocks());
    }
  }

  /** A bucket of the doubled table and its parent have the same lock. */
  lemma ParentLock(hp: nat, r: nat)
    requires Pow2(hp) >= MaxLocks() && r < Pow2(hp + 1)
    ensures LockInd(Parent(hp, r)) == LockInd(r) && Parent(hp, r) < Pow2(hp)
  {
    LockIndDoubles(hp, r);
    if r < Pow2(hp) {
      SmallMod(r, Pow2(hp));
    } else {
      DivModUnique(r, Pow2(hp), 1, r - Pow2(hp));
    }
  }

  /** Moves every old bucket of stripe l, by the same steps as rehash_lock. */
  method MoveStripe(src: BucketContainer, dst: BucketContainer, l: nat)
    requires src.Valid() && dst.Valid() && src.buckets != null && dst.buckets != null && src.buckets != dst.buckets
    requires dst.hashpower == src.hashpower + 1 && Placed(src.Rows(), src.hashpower)
    requires src.Size() >= MaxLocks() && l < MaxLocks()
    requires forall r | 0 <= r < |dst.Rows()| && LockInd(r) == l :: dst.Rows()[r] == EmptyBucket()
    modifies dst.buckets
    ensures dst.Valid() && src.Rows() == old(src.Rows())
    ensures |dst.Rows()| == old(|dst.Rows()|)
    ensures forall r | 0 <= r < |dst.Rows()| ::
      dst.Rows()[r] == if LockInd(r) == l then NewBucket(src.hashpower, src.Rows(), r) else old(dst.Rows())[r]
  {
    hide *;
    ghost var hp, rows, past := src.hashpower, dst.Rows(), src.Rows();
    Containers(src, dst);
    StripeStart(l);
    FilledNone(rows, hp, past);
    var ind := l;
    while ind < src.Size()
      invariant src.Valid() && dst.Valid() && src.Rows() == past
      invariant LockInd(ind) == l
      invariant dst.Rows() == Filled(rows, hp, past, StripeBelow(l, ind))
      decreases src.Size() - ind
    {
      MoveNext(src, dst, l, ind, rows);
      ind := ind + MaxLocks();
    }
    Containers(src, dst);
    StripeComplete(rows, hp, past, l, ind);
  }

  lemma Containers(src: BucketContainer, dst: BucketContainer)
    requires src.Valid() && dst.Valid() && src.buckets != null && dst.buckets != null && dst.hashpower == src.hashpower + 1
    ensures Shaped(src.Rows(), src.hashpower) && |dst.Rows()| == Pow2(src.hashpower + 1) && src.Size() == |src.Rows()|
    ensures |src.Rows()| == Pow2(src.hashpower) && Shaped(dst.Rows(), dst.hashpower)
  {
  }

  lemma FilledNone(rows: Table, hp: nat, past: Table)
    requires Shaped(past, hp) && |rows| == Pow2(hp + 1)
    ensures Filled(rows, hp, past, iset{}) == rows
  {
    hide NewBucket;
  }

  /** One round of the loop of rehash_lock: moves one more old bucket of the stripe. */
  method MoveNext(src: BucketContainer, dst: BucketContainer, l: nat, ind: nat, ghost rows: Table)
    requires src.Valid() && dst.Valid() && src.buckets != null && dst.buckets != null && src.buckets != dst.buckets
    requires dst.hashpower == src.hashpower + 1 && Placed(src.Rows(), src.hashpower)
    requires src.Size() >= MaxLocks() && LockInd(ind) == l && ind < src.Size() && |rows| == Pow2(src.hashpower + 1)
    requires forall r | 0 <= r < |rows| && LockInd(r) == l :: rows[r] == EmptyBucket()
    requires dst.Rows() == Filled(rows, src.hashpower, src.Rows(), StripeBelow(l, ind))
    modifies dst.buckets
    ensures src.Valid() && dst.Valid() && src.Rows() == old(src.Rows()) && LockInd(ind + MaxLocks()) == l
    ensures dst.Rows() == Filled(rows, src.hashpower, src.Rows(), StripeBelow(l, ind + MaxLocks()))
  {
    hide *;
    ghost var hp, past := src.hashpower, src.Rows();
    Containers(src, dst);
    SizeIs(hp);
    StripeNextEmpty(rows, hp, past, l, ind);
    StripeStep(l, ind);
    FilledStep(rows, hp, past, StripeBelow(l, ind), ind);
    MoveStripeBucket(src, dst, ind);
  }

  lemma SizeIs(hp: nat)
    ensures HashSize(hp) == Pow2(hp)
  {
  }

  /** The two new buckets of the next old bucket are still empty. */
  lemma StripeNextEmpty(rows: Table, hp: nat, past: Table, l: nat, ind: nat)
    requires Shaped(past, hp) && |rows| == Pow2(hp + 1) && ind < |past| && LockInd(ind) == l
    requires Pow2(hp) >= MaxLocks()
    requires forall r | 0 <= r < |rows| && LockInd(r) == l :: rows[r] == EmptyBucket()
    ensures BothEmpty(Filled(rows, hp, past, StripeBelow(l, ind)), hp, ind)
  {
    ParentLock(hp, ind + Pow2(hp));
    hide NewBucket, LockInd;
  }

  lemma StripeComplete(rows: Table, hp: nat, past: Table, l: nat, ind: nat)
    requires Shaped(past, hp) && |rows| == Pow2(hp + 1) && ind >= |past| && Pow2(hp) >= MaxLocks()
    ensures forall r | 0 <= r < |rows| :: Filled(rows, hp, past, StripeBelow(l, ind))[r]
                                       == if LockInd(r) == l then NewBucket(hp, past, r) else rows[r]
  {
    forall r | 0 <= r < |rows|
      ensures Parent(hp, r) in StripeBelow(l, ind) <==> LockInd(r) == l
    {
      ParentLock(hp, r);
    }
    hide NewBucket, LockInd;
  }

  /** move_bucket, for a bucket whose two targets are empty. */
  method MoveStripeBucket(src: BucketContainer, dst: BucketContainer, ind: nat)
    requires src.Valid() && dst.Valid() && src.buckets != null && dst.buckets != null && src.buckets != dst.buckets
    requires dst.hashpower == src.hashpower + 1 && Placed(src.Rows(), src.hashpower)
    requires ind < |src.Rows()| && BothEmpty(dst.Rows(), src.hashpower, ind)
    modifies dst.buckets
    ensures src.Valid() && dst.Valid() && src.Rows() == old(src.Rows())
    ensures dst.Rows() == BucketMoved(old(dst.Rows()), src.hashpower, ind, src.Rows()[ind])
  {
    assert Movable(src, dst, ind);
    hide BucketMoved, Placed;
    MoveBucket(src, dst, ind);
  }

  /** Moves every old bucket, as an eager doubling does. */
  method MoveAll(src: BucketContainer, dst: BucketContainer)
    requires src.Valid() && dst.Valid() && src.buckets != null && dst.buckets != null && src.buckets != dst.buckets
    requires dst.hashpower == src.hashpower + 1 && Placed(src.Rows(), src.hashpower)
    requires dst.Rows() == EmptyTable(dst.hashpower)
    modifies dst.buckets
    ensures dst.Valid() && src.Rows() == old(src.Rows())
    ensures dst.Rows() == Doubled(src.hashpower, src.Rows())
  {
    var hp := src.hashpower;
    ghost var rows, past := dst.Rows(), src.Rows();
    AllStart(hp, past);
    hide Below, Placed, NewBucket, BucketMoved, BothEmpty, Doubled;
    var i := 0;
    while i < src.Size()
      invariant 0 <= i <= src.Size()
      invariant src.Valid() && dst.Valid() && src.Rows() == past
      invariant dst.Rows() == Filled(rows, hp, past, Below(i))
    {
      AllStep(hp, past, i);
      MoveStripeBucket(src, dst, i);
      i := i + 1;
    }
  }

  ghost function Below(n: nat): iset<nat> {
    iset i: nat | IsBelow(i, n)
  }

  ghost predicate IsBelow(i: nat, n: nat) {
    i < n
  }

  lemma AllStart(hp: nat, past: Table)
    requires Shaped(past, hp)
    ensures Filled(EmptyTable(hp + 1), hp, past, Below(0)) == EmptyTable(hp + 1)
    ensures Filled(EmptyTable(hp + 1), hp, past, Below(|past|)) == Doubled(hp, past)
  {
    hide NewBucket;
    assert forall r | 0 <= r < Pow2(hp + 1) :: Parent(hp, r) in Below(|past|);
  }

  lemma AllStep(hp: nat, past: Table, i: nat)
    requires Shaped(past, hp) && i < |past|
    ensures var t := Filled(EmptyTable(hp + 1), hp, past, Below(i));
            && BothEmpty(t, hp, i)
            && BucketMoved(t, hp, i, past[i]) == Filled(EmptyTable(hp + 1), hp, past, Below(i + 1))
  {
    FilledStep(EmptyTable(hp + 1), hp, past, Below(i), i);
    assert Below(i) + iset{i} == Below(i + 1);
    hide NewBucket, BucketMoved;
  }
}
