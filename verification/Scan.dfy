/** Looking through the slots of one bucket. */
module Scan {
  import opened Params
  import opened Hashing
  import opened Rows
  import opened Paths

  /** A live slot that a lookup for k with this partial key accepts. */
  predicate Matches(b: Bucket, j: int, partial: Partial, k: Key) {
    0 <= j < |b| && b[j].Live? && (IS_SIMPLE || b[j].partial == partial) && b[j].key == k
  }

  /** The first matching slot of a bucket, or -1. */
  method TryReadFromBucket(b: Bucket, partial: Partial, k: Key) returns (slot: int)
    ensures -1 <= slot < |b|
    ensures slot >= 0 ==> Matches(b, slot, partial, k)
    ensures slot == -1 ==> forall j :: !Matches(b, j, partial, k)
    ensures forall j | 0 <= j < slot :: !Matches(b, j, partial, k)
  {
    var i := 0;
    while i < |b|
      invariant 0 <= i <= |b| && forall j | 0 <= j < i :: !Matches(b, j, partial, k)
    {
      if b[i].Empty? || (!IS_SIMPLE && partial != b[i].partial) {
        i := i + 1;
        continue;
      } else if b[i].key == k {
        return i;
      }
      i := i + 1;
    }
    return -1;
  }

  /** The slot that a new pair goes to in this bucket. */
  predicate LastFree(b: Bucket, j: int) {
    0 <= j < |b| && b[j].Empty? && forall x | j < x < |b| :: b[x].Live?
  }

  /** Looks for the key and for a free slot: the key's slot if it is there, else the last free slot, else -1. */
  method TryFindInsertBucket(b: Bucket, partial: Partial, k: Key) returns (absent: bool, slot: int)
    ensures -1 <= slot < |b|
    ensures !absent ==> Matches(b, slot, partial, k)
    ensures absent ==> forall j :: !Matches(b, j, partial, k)
    ensures absent ==> (slot == -1 <==> Full(b)) && (slot >= 0 ==> LastFree(b, slot) && b[slot].Empty?)
  {
    slot := -1;
    var i := 0;
    while i < |b|
      invariant 0 <= i <= |b| && -1 <= slot < i
      invariant forall j | 0 <= j < i :: !Matches(b, j, partial, k)
      invariant slot >= 0 ==> b[slot].Empty?
      invariant forall j | slot < j < i :: b[j].Live?
    {
      if b[i].Live? {
        if !IS_SIMPLE && partial != b[i].partial {
          i := i + 1;
          continue;
        }
        if b[i].key == k {
          return false, i;
        }
      } else {
        slot := i;
      }
      i := i + 1;
    }
    return true, slot;
  }

  lemma MatchFacts(b: Bucket, j: int, partial: Partial, k: Key)
    ensures Matches(b, j, partial, k) ==> 0 <= j < |b| && b[j].Live? && b[j].key == k
  {
  }

  lemma LiveIn(t: Table, i: nat, j: nat)
    requires i < |t| && j < |t[i]| && t[i][j].Live?
    ensures LiveAt(t, i, j)
  {
  }

  /** With correct partial keys, a bucket without a match does not hold the key. */
  lemma NotInBucket(t: Table, i: nat, partial: Partial, k: Key)
    requires i < |t| && partial == PartialOf(k) && forall j :: !Matches(t[i], j, partial, k)
    requires forall j | LiveAt(t, i, j) :: t[i][j].partial == PartialOf(t[i][j].key)
    ensures !StoredIn(t, i, k)
  {
    forall j | LiveAt(t, i, j)
      ensures t[i][j].key != k
    {
      assert !Matches(t[i], j, partial, k);
    }
  }
}
