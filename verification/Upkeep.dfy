/** What a table keeps besides its map: as many locks as it should have, and no old buckets once they are of no use. */
module Upkeep {
  import opened Bits
  import opened Params
  import opened Hashing
  import opened Rows
  import opened Lazy
  import opened Locks
  import opened Paths
  import opened Records
  import opened PathSearch
  import opened Protocol
  import opened Exclusion
  import opened Steps

  /** At a place from which the old buckets are about to be freed. */
  predicate Freeing(pc: Pc) {
    pc.Free? || pc.Finish?
  }

  /** There is a lock for each bucket, up to the greatest number of locks; a resizer may have provided for twice as many. */
  ghost predicate RightLocks(v: System) {
    && (forall t | 0 <= t < |v.pcs| && v.pcs[t].Appended? :: |v.sh.locks| == Min(MaxLocks(), Pow2(v.sh.s.hp + 1)))
    && ((forall t | 0 <= t < |v.pcs| :: !v.pcs[t].Appended?) ==> |v.sh.locks| == Min(MaxLocks(), Pow2(v.sh.s.hp)))
  }

  /** When the counter of stripes to migrate is 0, the old buckets have been freed, unless somebody is about to. */
  ghost predicate OldFreed(v: System) {
    v.sh.remaining == 0 && (forall t | 0 <= t < |v.pcs| :: !Freeing(v.pcs[t])) ==> v.sh.s.past == []
  }

  /** The step leaves the number of locks, the hashpower, the old buckets and the counter alone. */
  ghost predicate Ordinary(a: Shared, p: Pc, b: Shared, q: Pc) {
    && |b.locks| == |a.locks| && b.s.hp == a.s.hp && b.s.past == a.s.past && b.remaining == a.remaining
    && (p.Appended? <==> q.Appended?) && (Freeing(p) ==> Freeing(q))
  }

  /** The step frees the old buckets, or counts one stripe and goes on to free them with the last. */
  ghost predicate Clears(a: Shared, p: Pc, b: Shared, q: Pc) {
    && |b.locks| == |a.locks| && b.s.hp == a.s.hp && !p.Appended? && !q.Appended?
    && (b.s.past == [] || (b.s.past == a.s.past && !Freeing(p) && (b.remaining == 0 ==> q.Free?)))
  }

  lemma LoosePlaces(a: Shared, p: Pc)
    requires PcOk(a, p)
    ensures p.Release? ==> !p.next.Appended? && !Freeing(p.next)
    ensures p.UnlockAll? || p.AtEnd? ==> !p.next.Appended? && !Freeing(p.next)
  {
    hide TaskOk, SearchOk, Home, Other;
  }

  lemma TaskUpkeep(a: Shared, p: Pc, b: Shared, q: Pc, t: nat, c: Choice)
    requires PcOk(a, p) && TaskStep(a, p, b, q, t, c)
    ensures Ordinary(a, p, b, q) || Clears(a, p, b, q)
  {
    hide *;
    TaskStepCases(a, p, b, q, t, c);
    if ReleaseOne(a, p, b, q) || Return(a, p, b, q) {
      LoosePlaces(a, p);
      ReturnUpkeep(a, p, b, q);
    } else if MigrateOne(a, p, b, q) || DecrementRemaining(a, p, b, q) || FreeOld(a, p, b, q) || SkipMigrated(a, p, b, q) {
      MigrateUpkeep(a, p, b, q);
    } else {
      LockUpkeep(a, p, b, q, t, c);
    }
  }

  lemma ReturnUpkeep(a: Shared, p: Pc, b: Shared, q: Pc)
    requires ReleaseOne(a, p, b, q) || Return(a, p, b, q)
    requires p.Release? ==> !p.next.Appended? && !Freeing(p.next)
    ensures Ordinary(a, p, b, q)
  {
  }

  lemma StripeUpkeep(a: Shared, b: Shared, l: nat)
    requires StripeMoved(a, b, l)
    ensures |b.locks| == |a.locks| && b.s.hp == a.s.hp && b.s.past == a.s.past && b.remaining == a.remaining
  {
    hide Split.Wf;
  }

  lemma MigrateUpkeep(a: Shared, p: Pc, b: Shared, q: Pc)
    requires MigrateOne(a, p, b, q) || DecrementRemaining(a, p, b, q) || FreeOld(a, p, b, q) || SkipMigrated(a, p, b, q)
    ensures Ordinary(a, p, b, q) || Clears(a, p, b, q)
  {
    hide StripeMoved;
    if MigrateOne(a, p, b, q) {
      StripeUpkeep(a, b, p.taken[p.x]);
    }
  }

  lemma LockUpkeep(a: Shared, p: Pc, b: Shared, q: Pc, t: nat, c: Choice)
    requires || ReadHashpower(a, p, b, q) || FetchLocks(a, p, b, q) || TakeLock(a, p, b, q, t) || CheckHashpower(a, p, b, q)
             || Invoke(a, p, b, q, c.op)
    ensures Ordinary(a, p, b, q)
  {
    hide Task.Wanted, SetOwner;
    if TakeLock(a, p, b, q, t) {
      OwnerUpkeep(a, b, p.gen, p.todo[0], Some(t));
    }
  }

  lemma InsideUpkeep(a: Shared, p: Pc, b: Shared, q: Pc, t: nat, c: Choice)
    requires InsideStep(a, p, b, q, t, c)
    ensures Ordinary(a, p, b, q)
  {
    hide *;
    InsideStepCases(a, p, b, q, t, c);
    if OperateInside(a, p, b, q, c.pos, c.free) {
      OperateUpkeep(a, p, b, q, c);
    } else if InsertFreed(a, p, b, q, c.pos) || DropExtra(a, p, b, q, c.n) {
      InsertUpkeep(a, p, b, q, c);
    } else if LookInside(a, p, b, q) || MoveInside(a, p, b, q) || SettleInside(a, p, b, q) {
      DisplaceUpkeep(a, p, b, q);
    } else {
      SearchUpkeep(a, p, b, q);
    }
  }

  lemma ChangedUpkeep(a: Shared, b: Shared, op: Op, i: nat, j: nat)
    requires ChangedAt(a, b, op, i, j) || AddedAt(a, b, op, i, j)
    ensures |b.locks| == |a.locks| && b.s.hp == a.s.hp && b.s.past == a.s.past && b.remaining == a.remaining
  {
    hide Logged, LiveAt, LockInd, Put;
  }

  lemma OperateUpkeep(a: Shared, p: Pc, b: Shared, q: Pc, c: Choice)
    requires OperateInside(a, p, b, q, c.pos, c.free)
    ensures Ordinary(a, p, b, q)
  {
    hide FoundAt, ChangedAt, AddedAt, Full, Home, Other;
    forall i: nat, j: nat | ChangedAt(a, b, p.task.op, i, j) || AddedAt(a, b, p.task.op, i, j)
      ensures |b.locks| == |a.locks| && b.s.hp == a.s.hp && b.s.past == a.s.past && b.remaining == a.remaining
    {
      ChangedUpkeep(a, b, p.task.op, i, j);
    }
  }

  lemma InsertUpkeep(a: Shared, p: Pc, b: Shared, q: Pc, c: Choice)
    requires InsertFreed(a, p, b, q, c.pos) || DropExtra(a, p, b, q, c.n)
    ensures Ordinary(a, p, b, q)
  {
    hide FoundAt, ChangedAt, AddedAt, Home, Other, LockInd;
    forall i: nat, j: nat | ChangedAt(a, b, p.task.op, i, j) || AddedAt(a, b, p.task.op, i, j)
      ensures |b.locks| == |a.locks| && b.s.hp == a.s.hp && b.s.past == a.s.past && b.remaining == a.remaining
    {
      ChangedUpkeep(a, b, p.task.op, i, j);
    }
  }

  lemma DisplaceUpkeep(a: Shared, p: Pc, b: Shared, q: Pc)
    requires LookInside(a, p, b, q) || MoveInside(a, p, b, q) || SettleInside(a, p, b, q)
    ensures Ordinary(a, p, b, q)
  {
    hide PathSearch.Next, Displaced, MayMove, Start, Home, Other, Looking, LooksAt;
  }

  lemma SearchUpkeep(a: Shared, p: Pc, b: Shared, q: Pc)
    requires SearchOn(a, p, b, q) || SearchEnds(a, p, b, q) || SearchFails(a, p, b, q)
    ensures Ordinary(a, p, b, q)
  {
    hide Exhausted, Looking;
  }

  lemma ResizeUpkeep(a: Shared, p: Pc, b: Shared, q: Pc, t: nat, c: Choice)
    requires PcOk(a, p) && ResizeStep(a, p, b, q, t, c) && !AppendLocks(a, p, b, q, t) && !PublishDoubled(a, p, b, q)
    ensures Ordinary(a, p, b, q) || Clears(a, p, b, q)
  {
    hide *;
    ResizeStepCases(a, p, b, q, t, c);
    if FinishOne(a, p, b, q) || Drain(a, p, b, q) {
      FinishUpkeep(a, p, b, q);
    } else if UnlockNext(a, p, b, q) || CompareWithEnd(a, p, b, q) {
      LoosePlaces(a, p);
      UnlockUpkeep(a, p, b, q);
    } else {
      LockAllUpkeep(a, p, b, q, t, c);
    }
  }

  lemma FinishUpkeep(a: Shared, p: Pc, b: Shared, q: Pc)
    requires FinishOne(a, p, b, q) || Drain(a, p, b, q)
    ensures Ordinary(a, p, b, q) || Clears(a, p, b, q)
  {
    hide StripeMoved;
    if FinishOne(a, p, b, q) && !a.locks[p.l].isMigrated {
      StripeUpkeep(a, b, p.l);
    }
  }

  lemma LockAllUpkeep(a: Shared, p: Pc, b: Shared, q: Pc, t: nat, c: Choice)
    requires LockNext(a, p, b, q, t) || LockNextArray(a, p, b, q) || CheckResize(a, p, b, q, c.throws)
    ensures Ordinary(a, p, b, q)
  {
    hide SetOwner;
    if LockNext(a, p, b, q, t) {
      OwnerUpkeep(a, b, p.gen, p.l, Some(t));
    }
  }

  lemma UnlockUpkeep(a: Shared, p: Pc, b: Shared, q: Pc)
    requires UnlockNext(a, p, b, q) || CompareWithEnd(a, p, b, q)
    requires p.UnlockAll? || p.AtEnd? ==> !p.next.Appended? && !Freeing(p.next)
    ensures Ordinary(a, p, b, q)
  {
    hide SetOwner;
    if UnlockNext(a, p, b, q) {
      OwnerUpkeep(a, b, p.gen, p.l, None);
    }
  }

  lemma OwnerUpkeep(a: Shared, b: Shared, x: int, y: int, who: Option<nat>)
    requires SetOwner(a, b, x, y, who)
    ensures b.locks == a.locks && b.s == a.s && b.remaining == a.remaining
  {
  }

  lemma StepUpkeep(v: System, t: nat, w: System, c: Choice)
    requires Inv(v) && Step(v, t, w, c)
    ensures t < |v.pcs| == |w.pcs| && w == System(w.sh, v.pcs[t := w.pcs[t]])
    ensures var a, p, b, q := v.sh, v.pcs[t], w.sh, w.pcs[t];
            Ordinary(a, p, b, q) || Clears(a, p, b, q) || AppendLocks(a, p, b, q, t) || PublishDoubled(a, p, b, q)
  {
    hide *;
    StepIs(v, t, w, c);
    InvFacts(v);
    var a, p, b, q := v.sh, v.pcs[t], w.sh, w.pcs[t];
    if TaskStep(a, p, b, q, t, c) {
      TaskUpkeep(a, p, b, q, t, c);
    } else if InsideStep(a, p, b, q, t, c) {
      InsideUpkeep(a, p, b, q, t, c);
    } else if !AppendLocks(a, p, b, q, t) && !PublishDoubled(a, p, b, q) {
      ResizeUpkeep(a, p, b, q, t, c);
    }
  }

  lemma OrdinaryKeeps(v: System, t: nat, w: System)
    requires t < |v.pcs| == |w.pcs| && w == System(w.sh, v.pcs[t := w.pcs[t]]) && RightLocks(v) && OldFreed(v)
    requires Ordinary(v.sh, v.pcs[t], w.sh, w.pcs[t]) || Clears(v.sh, v.pcs[t], w.sh, w.pcs[t])
    ensures RightLocks(w) && OldFreed(w)
  {
    hide Pow2, Min;
    assert forall u | 0 <= u < |v.pcs| && u != t :: w.pcs[u] == v.pcs[u];
    assert v.pcs[t].Appended? <==> w.pcs[t].Appended?;
    assert RightLocks(w);
  }

  /** What a resizer knows when it adds locks or publishes the new hashpower. */
  lemma ResizerKnows(v: System, t: nat)
    requires Inv(v) && t < |v.pcs| && (v.pcs[t].Drained? || v.pcs[t].Appended?)
    ensures v.pcs[t].hp == v.sh.s.hp && v.sh.s.past == [] && |v.sh.locks| > 0
    ensures forall u | 0 <= u < |v.pcs| && u != t :: !v.pcs[u].Appended?
  {
    hide OwnersMatch, BornOk, CountOk, SharedOk, Split.AllMigrated;
    assert PcOk(v.sh, v.pcs[t]);
    ResizerOwns(v, t);
    Sizes(v.sh);
    assert forall u | 0 <= u < |v.pcs| && u != t :: !HasAll(v.pcs[u]);
  }

  lemma AppendKeepsUp(v: System, t: nat, w: System)
    requires Inv(v) && t < |v.pcs| == |w.pcs| && w == System(w.sh, v.pcs[t := w.pcs[t]]) && RightLocks(v)
    requires AppendLocks(v.sh, v.pcs[t], w.sh, w.pcs[t], t)
    ensures RightLocks(w) && OldFreed(w)
  {
    hide Inv, Flags;
    ResizerKnows(v, t);
    Pow2Increasing(v.sh.s.hp, v.sh.s.hp + 1);
  }

  lemma PublishKeepsUp(v: System, t: nat, w: System)
    requires Inv(v) && t < |v.pcs| == |w.pcs| && w == System(w.sh, v.pcs[t := w.pcs[t]]) && RightLocks(v)
    requires PublishDoubled(v.sh, v.pcs[t], w.sh, w.pcs[t])
    ensures RightLocks(w) && OldFreed(w)
  {
    hide Inv, Flags, Pow2;
    ResizerKnows(v, t);
  }

  lemma StartsUp(v: System)
    requires Initial(v)
    ensures RightLocks(v) && OldFreed(v)
  {
    hide Pow2;
  }

  lemma {:induction false} RunKeepsUp(vs: seq<System>, moves: seq<Move1>, n: nat)
    requires Run(vs, moves) && Initial(vs[0]) && InTime(vs, moves) && n < |vs|
    ensures Inv(vs[n]) && RightLocks(vs[n]) && OldFreed(vs[n])
  {
    hide Inv, Initial, Step, Overtaken, RightLocks, OldFreed, Ordinary, Clears, AppendLocks, PublishDoubled;
    RunInv(vs, moves, n);
    if n == 0 {
      StartsUp(vs[0]);
    } else {
      var v, w, m := vs[n - 1], vs[n], moves[n - 1];
      RunKeepsUp(vs, moves, n - 1);
      StepUpkeep(v, m.t, w, m.c);
      if AppendLocks(v.sh, v.pcs[m.t], w.sh, w.pcs[m.t], m.t) {
        AppendKeepsUp(v, m.t, w);
      } else if PublishDoubled(v.sh, v.pcs[m.t], w.sh, w.pcs[m.t]) {
        PublishKeepsUp(v, m.t, w);
      } else {
        OrdinaryKeeps(v, m.t, w);
      }
    }
  }

  /**
   * Along any run in time: while nobody is resizing there is exactly one lock for each bucket, up to the greatest number of
   * locks, and the current lock array has them all.
   */
  lemma LocksFollowBuckets(vs: seq<System>, moves: seq<Move1>, n: nat)
    requires Run(vs, moves) && Initial(vs[0]) && InTime(vs, moves) && n < |vs|
    requires forall t | 0 <= t < |vs[n].pcs| :: !vs[n].pcs[t].Appended?
    ensures |vs[n].sh.owners| > 0 && |vs[n].sh.owners[|vs[n].sh.owners| - 1]| == |vs[n].sh.locks|
    ensures |vs[n].sh.locks| == if Pow2(vs[n].sh.s.hp) <= MaxLocks() then Pow2(vs[n].sh.s.hp) else MaxLocks()
  {
    hide *;
    RunKeepsUp(vs, moves, n);
    InvFacts(vs[n]);
    Sizes(vs[n].sh);
    LastIs(vs[n].sh);
    RightLocksIs(vs[n]);
  }

  lemma RightLocksIs(v: System)
    requires RightLocks(v) && forall t | 0 <= t < |v.pcs| :: !v.pcs[t].Appended?
    ensures |v.sh.locks| == if Pow2(v.sh.s.hp) <= MaxLocks() then Pow2(v.sh.s.hp) else MaxLocks()
  {
    hide Pow2, MaxLocks;
  }

  /** Along any run in time: old buckets that have all been migrated are freed, at the latest by the thread that counts the last. */
  lemma OldBucketsGo(vs: seq<System>, moves: seq<Move1>, n: nat)
    requires Run(vs, moves) && Initial(vs[0]) && InTime(vs, moves) && n < |vs| && vs[n].sh.s.AllMigrated()
    requires forall t | 0 <= t < |vs[n].pcs| :: !vs[n].pcs[t].Decrement? && !Freeing(vs[n].pcs[t])
    ensures vs[n].sh.remaining == 0 && vs[n].sh.s.past == []
  {
    hide Inv, Initial, Step, Overtaken, RightLocks, SharedOk, OwnersMatch, BornOk;
    RunKeepsUp(vs, moves, n);
    InvFacts(vs[n]);
    UnmigratedZero(vs[n].sh.s.migrated);
    NoneUncounted(vs[n].pcs);
  }
}
