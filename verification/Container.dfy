/** The storage of one table: a power of two of buckets, owned by a pointer that is null once freed. */
module Container {
  import opened Bits
  import opened Params
  import opened Hashing
  import opened Rows

  class BucketContainer {
    var hashpower: nat
    var buckets: array?<Bucket>

    ghost predicate Valid()
      reads this, buckets
    {
      buckets != null ==> Shaped(buckets[..], hashpower)
    }

    /** The buckets as a value; nothing once they are freed. */
    function Rows(): (t: Table)
      reads this, buckets
    {
      if buckets == null then [] else buckets[..]
    }

    function Size(): nat
      reads this
    {
      HashSize(hashpower)
    }

    constructor (hp: nat)
      ensures Valid() && fresh(buckets) && hashpower == hp
      ensures Rows() == EmptyTable(hp)
    {
      hashpower := hp;
      var b := new Bucket[HashSize(hp)](_ => EmptyBucket());
      buckets := b;
      new;
      assert Rows() == EmptyTable(hp);
    }

    /** Constructs live data in an empty slot. */
    method SetKV(ind: nat, slot: nat, p: Partial, k: Key, v: Value)
      requires Valid() && buckets != null && ind < buckets.Length && slot < SLOTS && Rows()[ind][slot].Empty?
      modifies buckets
      ensures Valid() && Rows() == Put(old(Rows()), ind, slot, Live(p, k, v))
    {
      buckets[ind] := buckets[ind][slot := Live(p, k, v)];
      assert Rows() == Put(old(Rows()), ind, slot, Live(p, k, v));
    }

    /** Destroys the live data of a slot. */
    method EraseKV(ind: nat, slot: nat)
      requires Valid() && buckets != null && LiveAt(Rows(), ind, slot)
      modifies buckets
      ensures Valid() && Rows() == Put(old(Rows()), ind, slot, Empty)
    {
      buckets[ind] := buckets[ind][slot := Empty];
      assert Rows() == Put(old(Rows()), ind, slot, Empty);
    }

    /** Assigns the value of a live slot through the reference that mapped() returns. */
    method SetMapped(ind: nat, slot: nat, v: Value)
      requires Valid() && buckets != null && LiveAt(Rows(), ind, slot)
      modifies buckets
      ensures Valid() && Rows() == Put(old(Rows()), ind, slot, old(Rows())[ind][slot].(value := v))
    {
      buckets[ind] := buckets[ind][slot := buckets[ind][slot].(value := v)];
      assert Rows() == Put(old(Rows()), ind, slot, old(Rows())[ind][slot].(value := v));
    }

    /** Destroys all live data, slot by slot, and keeps the memory. */
    method Clear()
      requires Valid() && buckets != null
      modifies buckets
      ensures Valid() && Rows() == EmptyTable(hashpower)
    {
      var i := 0;
      while i < buckets.Length
        invariant 0 <= i <= buckets.Length && Valid()
        invariant forall x | 0 <= x < i :: buckets[x] == EmptyBucket()
      {
        var j := 0;
        while j < SLOTS
          invariant 0 <= j <= SLOTS && Valid()
          invariant forall x | 0 <= x < i :: buckets[x] == EmptyBucket()
          invariant forall y | 0 <= y < j :: buckets[i][y].Empty?
        {
          if buckets[i][j].Live? {
            EraseKV(i, j);
          }
          j := j + 1;
        }
        assert buckets[i] == EmptyBucket();
        i := i + 1;
      }
      assert Rows() == EmptyTable(hashpower);
    }

    method ClearAndDeallocate()
      requires Valid()
      modifies this`buckets, buckets
      ensures Valid() && buckets == null && Rows() == []
    {
      if buckets != null {
        Clear();
        buckets := null;
      }
    }

    /** Exchanges memory and hashpower with another container. */
    method Swap(other: BucketContainer)
      requires Valid() && other.Valid()
      modifies this, other
      ensures hashpower == old(other.hashpower) && buckets == old(other.buckets)
      ensures other.hashpower == old(hashpower) && other.buckets == old(buckets)
      ensures Valid() && other.Valid()
      ensures Rows() == old(other.Rows()) && other.Rows() == old(Rows())
    {
      var hp := other.hashpower;
      other.hashpower := hashpower;
      hashpower := hp;
      var b := other.buckets;
      other.buckets := buckets;
      buckets := b;
    }

    /** Replaces the storage by a new empty one, as move assignment from a temporary container does. */
    method Reset(hp: nat)
      requires Valid()
      modifies this, buckets
      ensures Valid() && fresh(buckets) && hashpower == hp
      ensures Rows() == EmptyTable(hp)
    {
      ClearAndDeallocate();
      hashpower := hp;
      buckets := new Bucket[HashSize(hp)](_ => EmptyBucket());
      assert Rows() == EmptyTable(hp);
    }

    /** A copy in fresh storage of at least the same size, slot by slot; of a container without storage, nothing. */
    method Transfer(dstHp: nat) returns (copied: array?<Bucket>)
      requires Valid() && dstHp >= hashpower
      ensures copied == null <==> buckets == null
      ensures copied != null ==>
                && fresh(copied) && copied.Length == HashSize(dstHp)
                && forall i | 0 <= i < copied.Length :: copied[i] == if i < buckets.Length then buckets[i] else EmptyBucket()
    {
      if buckets == null {
        return null;
      }
      var dst := new BucketContainer(dstHp);
      Pow2Increasing(hashpower, dstHp);
      var i := 0;
      while i < buckets.Length
        invariant 0 <= i <= buckets.Length && dst.Valid() && fresh(dst) && fresh(dst.buckets) && dst.buckets.Length == HashSize(dstHp)
        invariant forall x | 0 <= x < dst.buckets.Length :: dst.buckets[x] == if x < i then buckets[x] else EmptyBucket()
      {
        CopyBucket(dst, i);
        i := i + 1;
      }
      copied := dst.buckets;
    }

    /** Copies the live pairs of bucket i to the same slots of an empty bucket. */
    method CopyBucket(dst: BucketContainer, i: nat)
      requires Valid() && buckets != null && dst.Valid() && dst.buckets != null && dst.buckets != buckets
      requires i < buckets.Length && i < dst.buckets.Length && dst.buckets[i] == EmptyBucket()
      modifies dst.buckets
      ensures dst.Valid() && dst.buckets[i] == buckets[i]
      ensures forall x | 0 <= x < dst.buckets.Length && x != i :: dst.buckets[x] == old(dst.buckets[x])
    {
      var j := 0;
      while j < SLOTS
        invariant 0 <= j <= SLOTS && dst.Valid()
        invariant forall x | 0 <= x < dst.buckets.Length && x != i :: dst.buckets[x] == old(dst.buckets[x])
        invariant forall y | 0 <= y < SLOTS :: dst.buckets[i][y] == if y < j then buckets[i][y] else Empty
      {
        if buckets[i][j].Live? {
          var s := buckets[i][j];
          dst.SetKV(i, j, s.partial, s.key, s.value);
        }
        j := j + 1;
      }
    }
  }
}
