/** Moving the contents of one old bucket into the two buckets it splits into. */
module Mover {
  import opened Params
  import opened Hashing
  import opened Rows
  import opened Doubling
  import opened Container

  /** The else branch of move_bucket is taken only by keys that stay where they are. */
  lemma StaysInPlace(hp: nat, k: Key, i: nat)
    requires IsCandidate(hp, k, i) && !GoesHigh(hp, i, k)
    ensures (i == Home(hp, k) && Home(hp + 1, k) == Home(hp, k)) || (i == Other(hp, k) && Other(hp + 1, k) == Other(hp, k))
  {
    HomeDoubles(hp, k);
    OtherDoubles(hp, k);
  }

  /** The two halves of bucket b after its first n slots have been moved. */
  function LowPart(b: Bucket, flags: seq<bool>, n: nat): Bucket
    requires |flags| == |b| && n <= |b|
  {
    seq(|b|, x requires 0 <= x < |b| => if x < n && !flags[x] then b[x] else Empty)
  }

  function HighPart(b: Bucket, flags: seq<bool>, n: nat): Bucket
    requires |flags| == |b| && n <= |b|
  {
    var s := Marked(flags[..n]);
    seq(|b|, x requires 0 <= x < |b| => if x < |s| then b[s[x]] else Empty)
  }

  lemma PartsStep(b: Bucket, flags: seq<bool>, n: nat)
    requires |flags| == |b| && n < |b| && (flags[n] ==> b[n].Live?)
    ensures var m := |Marked(flags[..n])|;
            && m <= n && |HighPart(b, flags, n)| == |LowPart(b, flags, n)| == |b|
            && HighPart(b, flags, n)[m].Empty? && LowPart(b, flags, n)[n].Empty?
            && |Marked(flags[..n + 1])| == (if flags[n] then m + 1 else m)
            && HighPart(b, flags, n + 1) == (if flags[n] then HighPart(b, flags, n)[m := b[n]] else HighPart(b, flags, n))
            && LowPart(b, flags, n + 1) == (if flags[n] then LowPart(b, flags, n) else LowPart(b, flags, n)[n := b[n]])
  {
    assert flags[..n + 1][..n] == flags[..n];
    var s, s' := Marked(flags[..n]), Marked(flags[..n + 1]);
    assert s' == if flags[n] then s + [n] else s;
    hide Marked;
    var low, high := LowPart(b, flags, n), HighPart(b, flags, n);
    if flags[n] {
      assert HighPart(b, flags, n + 1) == high[|s| := b[n]];
      assert LowPart(b, flags, n + 1) == low;
    } else {
      assert HighPart(b, flags, n + 1) == high;
      assert LowPart(b, flags, n + 1) == low[n := b[n]];
    }
  }

  /** The new table with the two halves of old bucket i, whose contents are b, written to their places. */
  function BucketMoved(t: Table, hp: nat, i: nat, b: Bucket): Table
    requires i + HashSize(hp) < |t|
  {
    t[i := LowBucket(hp, i, b)][i + HashSize(hp) := HighBucket(hp, i, b)]
  }

  /** The table `rows` with the two halves written, after n slots have been moved. */
  function Halfway(rows: Table, ind: nat, newInd: nat, b: Bucket, flags: seq<bool>, n: nat): Table
    requires ind < |rows| && newInd < |rows| && ind != newInd && |flags| == |b| && n <= |b|
  {
    rows[ind := LowPart(b, flags, n)][newInd := HighPart(b, flags, n)]
  }

  lemma HalfwayStart(rows: Table, ind: nat, newInd: nat, b: Bucket, flags: seq<bool>)
    requires ind < |rows| && newInd < |rows| && ind != newInd && |flags| == |b| == SLOTS
    requires rows[ind] == EmptyBucket() && rows[newInd] == EmptyBucket()
    ensures Halfway(rows, ind, newInd, b, flags, 0) == rows && Marked(flags[..0]) == []
  {
    assert LowPart(b, flags, 0) == EmptyBucket() && HighPart(b, flags, 0) == EmptyBucket();
  }

  lemma HalfwayStep(rows: Table, ind: nat, newInd: nat, b: Bucket, flags: seq<bool>, n: nat)
    requires ind < |rows| && newInd < |rows| && ind != newInd && |flags| == |b|
    requires n < |b| && (flags[n] ==> b[n].Live?)
    ensures var t, m := Halfway(rows, ind, newInd, b, flags, n), |Marked(flags[..n])|;
            && m <= n && |t| == |rows| && |t[ind]| == |t[newInd]| == |b|
            && t[newInd][m].Empty? && t[ind][n].Empty?
            && |Marked(flags[..n + 1])| == (if flags[n] then m + 1 else m)
            && Halfway(rows, ind, newInd, b, flags, n + 1)
            == (if b[n].Empty? then t else if flags[n] then Put(t, newInd, m, b[n]) else Put(t, ind, n, b[n]))
  {
    PartsStep(b, flags, n);
    var m := |Marked(flags[..n])|;
    hide Marked, LowPart, HighPart;
    var low, high := LowPart(b, flags, n), HighPart(b, flags, n);
    if b[n].Empty? {
      assert low[n := b[n]] == low;
    }
    TwoRows(rows, ind, newInd, low, high, high[m := b[n]]);
    TwoRows(rows, newInd, ind, high, low, low[n := b[n]]);
  }

  /** Writes to two different rows do not interfere. */
  lemma TwoRows(rows: Table, i: nat, j: nat, x: Bucket, y: Bucket, z: Bucket)
    requires i < |rows| && j < |rows| && i != j
    ensures rows[i := x][j := y][j := z] == rows[i := x][j := z]
    ensures rows[i := x][j := y] == rows[j := y][i := x]
    ensures rows[i := x][j := y][i] == x && rows[i := x][j := y][j] == y
  {
  }

  lemma HalfwayEnd(rows: Table, hp: nat, ind: nat, b: Bucket)
    requires ind + HashSize(hp) < |rows|
    ensures Halfway(rows, ind, ind + HashSize(hp), b, HighFlags(hp, ind, b), |b|) == BucketMoved(rows, hp, ind, b)
  {
    var flags := HighFlags(hp, ind, b);
    assert flags[..|b|] == flags;
    assert LowPart(b, flags, |b|) == LowBucket(hp, ind, b);
    assert HighPart(b, flags, |b|) == HighBucket(hp, ind, b);
  }

  /**
   * Decides by rehashing whether a key of bucket `ind` moves up. Where it ends, it is in one of its candidate buckets; a key
   * that does not move has kept the candidate in which it is.
   */
  method MovesHigh(oldHp: nat, newHp: nat, ind: nat, k: Key) returns (high: bool)
    requires newHp == oldHp + 1 && IsCandidate(oldHp, k, ind)
    ensures high == GoesHigh(oldHp, ind, k)
    ensures IsCandidate(newHp, k, if high then ind + HashSize(oldHp) else ind)
    ensures !high ==>
              || (ind == Home(oldHp, k) && Home(newHp, k) == Home(oldHp, k))
              || (ind == Other(oldHp, k) && Other(newHp, k) == Other(oldHp, k))
  {
    var hash := Hash(k);
    var partial := PartialKey(hash);
    var oldIhash := IndexHash(oldHp, hash);
    var oldAhash := AltIndex(oldHp, partial, oldIhash);
    var newIhash := IndexHash(newHp, hash);
    var newAhash := AltIndex(newHp, partial, newIhash);
    var newInd := ind + HashSize(oldHp);
    high := (ind == oldIhash && newIhash == newInd) || (ind == oldAhash && newAhash == newInd);
    Destination(oldHp, k, ind);
    if !high {
      StaysInPlace(oldHp, k, ind);
      assert (ind == oldIhash && newIhash == oldIhash) || (ind == oldAhash && newAhash == oldAhash);
    }
  }

  /** src is the old and dst the new table of a doubling, and `ind` an old bucket. */
  ghost predicate Movable(src: BucketContainer, dst: BucketContainer, ind: nat)
    reads src, dst, src.buckets, dst.buckets
  {
    && src.Valid() && dst.Valid() && src.buckets != null && dst.buckets != null && src.buckets != dst.buckets
    && dst.hashpower == src.hashpower + 1
    && ind < |src.Rows()| && ind + HashSize(src.hashpower) < |dst.Rows()| && |src.Rows()[ind]| == SLOTS
    && Placed(src.Rows(), src.hashpower)
  }

  /** Moves one slot of the old bucket, if it is live, to the slot of the same number or to the next one of the new bucket. */
  method MoveSlot(src: BucketContainer, dst: BucketContainer, ind: nat, j: nat, newSlot: nat) returns (next: nat)
    requires Movable(src, dst, ind) && j < SLOTS && newSlot < SLOTS
    requires dst.Rows()[ind][j].Empty? && dst.Rows()[ind + src.Size()][newSlot].Empty?
    modifies dst.buckets
    ensures Movable(src, dst, ind) && src.Rows() == old(src.Rows())
    ensures var s, newInd := src.Rows()[ind][j], ind + src.Size();
            && next == (if High(src.hashpower, ind, s) then newSlot + 1 else newSlot)
            && dst.Rows() == (if s.Empty? then old(dst.Rows())
                              else if High(src.hashpower, ind, s) then Put(old(dst.Rows()), newInd, newSlot, s)
                              else Put(old(dst.Rows()), ind, j, s))
  {
    hide GoesHigh, IsCandidate, PartialOf, EmptyBucket;
    next := newSlot;
    if src.buckets[ind][j].Live? {
      var s := src.buckets[ind][j];
      assert LiveAt(src.Rows(), ind, j);
      var high := MovesHigh(src.hashpower, dst.hashpower, ind, s.key);
      if high {
        dst.SetKV(ind + HashSize(src.hashpower), newSlot, s.partial, s.key, s.value);
        next := newSlot + 1;
      } else {
        dst.SetKV(ind, j, s.partial, s.key, s.value);
      }
    }
  }

  /** How far the move of bucket `ind` has come: its first j slots, from the new table `rows` before the move. */
  ghost predicate MovedSoFar(src: BucketContainer, dst: BucketContainer, ind: nat, rows: Table, j: nat, newSlot: nat)
    requires Movable(src, dst, ind)
    reads src, dst, src.buckets, dst.buckets
  {
    var b := src.Rows()[ind];
    var flags := HighFlags(src.hashpower, ind, b);
    && j <= SLOTS && |rows| == |dst.Rows()|
    && newSlot == |Marked(flags[..j])|
    && dst.Rows() == Halfway(rows, ind, ind + HashSize(src.hashpower), b, flags, j)
  }

  /** The body of the loop over the slots. */
  method MoveNextSlot(src: BucketContainer, dst: BucketContainer, ind: nat, j: nat, newSlot: nat, ghost rows: Table)
    returns (next: nat)
    requires Movable(src, dst, ind) && j < SLOTS && MovedSoFar(src, dst, ind, rows, j, newSlot)
    modifies dst.buckets
    ensures Movable(src, dst, ind) && src.Rows() == old(src.Rows())
    ensures MovedSoFar(src, dst, ind, rows, j + 1, next)
  {
    hide *;
    ghost var t := dst.Rows();
    NextSlotIsFree(src, dst, ind, rows, j, newSlot);
    next := MoveSlot(src, dst, ind, j, newSlot);
    SlotMoved(src, dst, ind, rows, t, j, newSlot, next);
  }

  lemma NextSlotIsFree(src: BucketContainer, dst: BucketContainer, ind: nat, rows: Table, j: nat, newSlot: nat)
    requires Movable(src, dst, ind) && j < SLOTS && MovedSoFar(src, dst, ind, rows, j, newSlot)
    ensures newSlot < SLOTS && ind + src.Size() < |dst.Rows()|
    ensures |dst.Rows()[ind]| == |dst.Rows()[ind + src.Size()]| == SLOTS && dst.Rows()[ind][j].Empty?
    ensures dst.Rows()[ind + src.Size()][newSlot].Empty?
    ensures var b := src.Rows()[ind];
            && |rows| == |dst.Rows()| && newSlot == |Marked(HighFlags(src.hashpower, ind, b)[..j])|
            && dst.Rows() == Halfway(rows, ind, ind + HashSize(src.hashpower), b, HighFlags(src.hashpower, ind, b), j)
  {
    var b := src.Rows()[ind];
    var flags := HighFlags(src.hashpower, ind, b);
    HalfwayStep(rows, ind, ind + HashSize(src.hashpower), b, flags, j);
    hide High, GoesHigh, Marked, LowPart, HighPart, HighFlags, Placed, Put, Halfway;
  }

  lemma SlotMoved(src: BucketContainer, dst: BucketContainer, ind: nat, rows: Table, t: Table, j: nat, newSlot: nat, next: nat)
    requires Movable(src, dst, ind) && j < SLOTS && newSlot < SLOTS && |t| == |rows| && ind + src.Size() < |t|
    requires var b := src.Rows()[ind];
             && newSlot == |Marked(HighFlags(src.hashpower, ind, b)[..j])|
             && t == Halfway(rows, ind, ind + HashSize(src.hashpower), b, HighFlags(src.hashpower, ind, b), j)
    requires j < |t[ind]| && newSlot < |t[ind + src.Size()]|
    requires var s, newInd := src.Rows()[ind][j], ind + src.Size();
             && next == (if High(src.hashpower, ind, s) then newSlot + 1 else newSlot)
             && dst.Rows() == (if s.Empty? then t
                               else if High(src.hashpower, ind, s) then Put(t, newInd, newSlot, s)
                               else Put(t, ind, j, s))
    ensures MovedSoFar(src, dst, ind, rows, j + 1, next)
  {
    var b := src.Rows()[ind];
    var flags := HighFlags(src.hashpower, ind, b);
    hide High, GoesHigh, Marked, LowPart, HighPart, HighFlags, Placed, Put, Halfway, EmptyBucket, Shaped;
    HalfwayMoved(rows, t, dst.Rows(), src.hashpower, ind, b, j, newSlot, next);
  }

  lemma HalfwayMoved(rows: Table, t: Table, r: Table, hp: nat, ind: nat, b: Bucket, j: nat, newSlot: nat, next: nat)
    requires ind + HashSize(hp) < |rows| && j < |b| && newSlot == |Marked(HighFlags(hp, ind, b)[..j])|
    requires t == Halfway(rows, ind, ind + HashSize(hp), b, HighFlags(hp, ind, b), j)
    requires j < |t[ind]| && newSlot < |t[ind + HashSize(hp)]|
    requires next == if High(hp, ind, b[j]) then newSlot + 1 else newSlot
    requires r == if b[j].Empty? then t
                  else if High(hp, ind, b[j]) then Put(t, ind + HashSize(hp), newSlot, b[j])
                  else Put(t, ind, j, b[j])
    ensures next == |Marked(HighFlags(hp, ind, b)[..j + 1])|
    ensures |r| == |rows| && r == Halfway(rows, ind, ind + HashSize(hp), b, HighFlags(hp, ind, b), j + 1)
  {
    FlagAt(hp, ind, b, j);
    hide High, GoesHigh, Marked, LowPart, HighPart, HighFlags, Put, Halfway;
    HalfwayStep(rows, ind, ind + HashSize(hp), b, HighFlags(hp, ind, b), j);
  }

  lemma FlagAt(hp: nat, ind: nat, b: Bucket, j: nat)
    requires j < |b|
    ensures |HighFlags(hp, ind, b)| == |b| && HighFlags(hp, ind, b)[j] == High(hp, ind, b[j])
    ensures High(hp, ind, b[j]) ==> b[j].Live?
  {
    hide GoesHigh;
  }

  /**
   * Moves bucket `ind` of src. Only empty slots of dst are written, and afterwards its buckets ind and ind + 2^hp
   * are the two halves of the old bucket; the old bucket itself is left as it was.
   */
  method MoveBucket(src: BucketContainer, dst: BucketContainer, ind: nat)
    requires Movable(src, dst, ind)
    requires dst.Rows()[ind] == EmptyBucket() && dst.Rows()[ind + src.Size()] == EmptyBucket()
    modifies dst.buckets
    ensures Movable(src, dst, ind) && src.Rows() == old(src.Rows())
    ensures dst.Rows() == BucketMoved(old(dst.Rows()), src.hashpower, ind, src.Rows()[ind])
  {
    ghost var rows, b := dst.Rows(), src.Rows()[ind];
    HalfwayStart(rows, ind, ind + HashSize(src.hashpower), b, HighFlags(src.hashpower, ind, b));
    HalfwayEnd(rows, src.hashpower, ind, b);
    hide LowPart, HighPart, LowBucket, HighBucket, HighFlags, Placed, Halfway, BucketMoved;
    var newSlot := 0;
    var j := 0;
    while j < SLOTS
      invariant 0 <= j <= SLOTS && Movable(src, dst, ind) && src.Rows() == old(src.Rows())
      invariant MovedSoFar(src, dst, ind, rows, j, newSlot)
    {
      newSlot := MoveNextSlot(src, dst, ind, j, newSlot, rows);
      j := j + 1;
    }
  }
}
