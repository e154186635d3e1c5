/**
 * What becomes of an operation that finds the table changed: it starts again and ends as if it had only then been called. An
 * exception comes from the check of a resize and from nothing else.
 */
module Retry {
  import opened Hashing
  import opened Rows
  import opened Lazy
  import opened Locks
  import opened State
  import opened Paths
  import opened Records
  import opened PathSearch
  import opened Protocol
  import opened Exclusion
  import opened Steps
  import opened Guarantees
  import opened Progress
  import opened Runs
  import opened Alone
  import opened Overtaking

  // Exceptions.

  function Delivers(next: Pc): Option<Op> {
    if next.Thrown? then Some(next.op) else None
  }

  /** The operation that ends here with an exception, or is on its way to that end. */
  function Failing(pc: Pc): Option<Op> {
    match pc
    case Release(_, _, next) => Delivers(next)
    case UnlockAll(_, _, _, next) => Delivers(next)
    case AtEnd(_, _, next) => Delivers(next)
    case _ => Delivers(pc)
  }

  /** The check of a resize, under all locks, that decides on an exception. */
  ghost predicate CheckThrows(a: Shared, p: Pc, b: Shared, q: Pc, c: Choice) {
    p.AllLocked? && c.throws && CheckResize(a, p, b, q, true) && Failing(q) == Some(p.op)
  }

  /** No other step leads to an exception, or away from one before it is delivered. */
  ghost predicate FailsByCheck(a: Shared, p: Pc, b: Shared, q: Pc, c: Choice) {
    Failing(q) == Failing(p) || (p.Thrown? && q == Idle) || CheckThrows(a, p, b, q, c)
  }

  /** The operation that wants the table doubled, and the hashpower it found too small. */
  function Resizing(pc: Pc): Option<(Op, nat)> {
    match pc
    case LockAll(op, hp, _, _, _) => Some((op, hp))
    case AllLocked(op, hp, _) => Some((op, hp))
    case Finish(op, hp, _, _) => Some((op, hp))
    case Drained(op, hp, _) => Some((op, hp))
    case Appended(op, hp, _) => Some((op, hp))
    case _ => None
  }

  /** A resize begins with a search that is exhausted, and with nothing else. */
  ghost predicate SearchedInVain(p: Pc, q: Pc) {
    p.Searching? && Exhausted(p.search) && Resizing(q) == Some((p.op, p.hp))
  }

  ghost predicate ResizesBySearch(p: Pc, q: Pc) {
    Resizing(q) == None || Resizing(q) == Resizing(p) || SearchedInVain(p, q)
  }

  lemma TaskStepFails(a: Shared, p: Pc, b: Shared, q: Pc, t: nat, c: Choice)
    requires PcOk(a, p) && TaskStep(a, p, b, q, t, c)
    ensures FailsByCheck(a, p, b, q, c) && ResizesBySearch(p, q)
  {
    hide *;
    TaskStepCases(a, p, b, q, t, c);
    if ReleaseOne(a, p, b, q) || Return(a, p, b, q) {
      ReturnFails(a, p, b, q, c);
    } else if MigrateOne(a, p, b, q) || DecrementRemaining(a, p, b, q) || FreeOld(a, p, b, q) || SkipMigrated(a, p, b, q) {
      MigrateFails(a, p, b, q, c);
    } else if TakeLock(a, p, b, q, t) || CheckHashpower(a, p, b, q) {
      LockFails(a, p, b, q, t, c);
    } else {
      BeginFails(a, p, b, q, c);
    }
  }

  lemma ReturnFails(a: Shared, p: Pc, b: Shared, q: Pc, c: Choice)
    requires PcOk(a, p) && (ReleaseOne(a, p, b, q) || Return(a, p, b, q))
    ensures FailsByCheck(a, p, b, q, c) && ResizesBySearch(p, q)
  {
    hide SetOwner, TaskOk, SearchOk, Home, Other, CheckThrows;
  }

  lemma MigrateFails(a: Shared, p: Pc, b: Shared, q: Pc, c: Choice)
    requires MigrateOne(a, p, b, q) || DecrementRemaining(a, p, b, q) || FreeOld(a, p, b, q) || SkipMigrated(a, p, b, q)
    ensures FailsByCheck(a, p, b, q, c) && ResizesBySearch(p, q)
  {
    hide StripeMoved, CheckThrows, SearchedInVain;
  }

  lemma LockFails(a: Shared, p: Pc, b: Shared, q: Pc, t: nat, c: Choice)
    requires TakeLock(a, p, b, q, t) || CheckHashpower(a, p, b, q)
    ensures FailsByCheck(a, p, b, q, c) && ResizesBySearch(p, q)
  {
    hide SetOwner, CheckThrows, SearchedInVain;
  }

  lemma BeginFails(a: Shared, p: Pc, b: Shared, q: Pc, c: Choice)
    requires ReadHashpower(a, p, b, q) || FetchLocks(a, p, b, q) || Invoke(a, p, b, q, c.op)
    ensures FailsByCheck(a, p, b, q, c) && ResizesBySearch(p, q)
  {
    hide Task.Wanted, CheckThrows, SearchedInVain;
  }

  lemma InsideStepFails(a: Shared, p: Pc, b: Shared, q: Pc, t: nat, c: Choice)
    requires InsideStep(a, p, b, q, t, c)
    ensures FailsByCheck(a, p, b, q, c) && ResizesBySearch(p, q)
  {
    hide *;
    InsideStepCases(a, p, b, q, t, c);
    if OperateInside(a, p, b, q, c.pos, c.free) {
      OperateFails(a, p, b, q, c);
    } else if InsertFreed(a, p, b, q, c.pos) || DropExtra(a, p, b, q, c.n) {
      InsertFails(a, p, b, q, c);
    } else if LookInside(a, p, b, q) || MoveInside(a, p, b, q) || SettleInside(a, p, b, q) {
      DisplaceFails(a, p, b, q, c);
    } else {
      SearchStepFails(a, p, b, q, c);
    }
  }

  lemma OperateFails(a: Shared, p: Pc, b: Shared, q: Pc, c: Choice)
    requires OperateInside(a, p, b, q, c.pos, c.free)
    ensures FailsByCheck(a, p, b, q, c) && ResizesBySearch(p, q)
  {
    hide FoundAt, ChangedAt, AddedAt, NothingToDo, Full, CheckThrows, Home, Other;
  }

  lemma InsertFails(a: Shared, p: Pc, b: Shared, q: Pc, c: Choice)
    requires InsertFreed(a, p, b, q, c.pos) || DropExtra(a, p, b, q, c.n)
    ensures FailsByCheck(a, p, b, q, c) && ResizesBySearch(p, q)
  {
    hide FoundAt, ChangedAt, AddedAt, SetOwner, CheckThrows, Home, Other, LockInd;
  }

  lemma DisplaceFails(a: Shared, p: Pc, b: Shared, q: Pc, c: Choice)
    requires LookInside(a, p, b, q) || MoveInside(a, p, b, q) || SettleInside(a, p, b, q)
    ensures FailsByCheck(a, p, b, q, c) && ResizesBySearch(p, q)
  {
    hide Next, Displaced, MayMove, Start, Home, Other, Looking, LooksAt, CheckThrows;
  }

  lemma SearchStepFails(a: Shared, p: Pc, b: Shared, q: Pc, c: Choice)
    requires SearchOn(a, p, b, q) || SearchEnds(a, p, b, q) || SearchFails(a, p, b, q)
    ensures FailsByCheck(a, p, b, q, c) && ResizesBySearch(p, q)
  {
    hide Exhausted, Looking, CheckThrows;
  }

  lemma ResizeStepFails(a: Shared, p: Pc, b: Shared, q: Pc, t: nat, c: Choice)
    requires PcOk(a, p) && ResizeStep(a, p, b, q, t, c)
    ensures FailsByCheck(a, p, b, q, c) && ResizesBySearch(p, q)
  {
    hide *;
    ResizeStepCases(a, p, b, q, t, c);
    if UnlockNext(a, p, b, q) || CompareWithEnd(a, p, b, q) {
      UnlockFails(a, p, b, q, c);
    } else if CheckResize(a, p, b, q, c.throws) {
      CheckFails(a, p, b, q, c);
    } else if AppendLocks(a, p, b, q, t) || PublishDoubled(a, p, b, q) {
      DoubleFails(a, p, b, q, t, c);
    } else if LockNext(a, p, b, q, t) || LockNextArray(a, p, b, q) {
      LockAllFails(a, p, b, q, t, c);
    } else {
      FinishFails(a, p, b, q, c);
    }
  }

  lemma UnlockFails(a: Shared, p: Pc, b: Shared, q: Pc, c: Choice)
    requires PcOk(a, p) && (UnlockNext(a, p, b, q) || CompareWithEnd(a, p, b, q))
    ensures FailsByCheck(a, p, b, q, c) && ResizesBySearch(p, q)
  {
    hide SetOwner, TaskOk, SearchOk, Home, Other, CheckThrows;
  }

  lemma CheckFails(a: Shared, p: Pc, b: Shared, q: Pc, c: Choice)
    requires CheckResize(a, p, b, q, c.throws)
    ensures FailsByCheck(a, p, b, q, c) && ResizesBySearch(p, q)
  {
  }

  lemma LockAllFails(a: Shared, p: Pc, b: Shared, q: Pc, t: nat, c: Choice)
    requires LockNext(a, p, b, q, t) || LockNextArray(a, p, b, q)
    ensures FailsByCheck(a, p, b, q, c) && ResizesBySearch(p, q)
  {
    hide SetOwner, CheckThrows, SearchedInVain;
  }

  lemma FinishFails(a: Shared, p: Pc, b: Shared, q: Pc, c: Choice)
    requires FinishOne(a, p, b, q) || Drain(a, p, b, q)
    ensures FailsByCheck(a, p, b, q, c) && ResizesBySearch(p, q)
  {
    hide StripeMoved, CheckThrows, SearchedInVain;
  }

  lemma DoubleFails(a: Shared, p: Pc, b: Shared, q: Pc, t: nat, c: Choice)
    requires AppendLocks(a, p, b, q, t) || PublishDoubled(a, p, b, q)
    ensures FailsByCheck(a, p, b, q, c) && ResizesBySearch(p, q)
  {
    hide GrownLocks, Flags, Split.Published, PublishedLocks, Split.Wf, HashSize, CheckThrows;
  }

  lemma StepFailsByCheck(v: System, t: nat, w: System, c: Choice)
    requires Inv(v) && Step(v, t, w, c)
    ensures t < |v.pcs| == |w.pcs| && FailsByCheck(v.sh, v.pcs[t], w.sh, w.pcs[t], c)
    ensures ResizesBySearch(v.pcs[t], w.pcs[t])
  {
    hide *;
    StepIs(v, t, w, c);
    InvFacts(v);
    var a, p, b, q := v.sh, v.pcs[t], w.sh, w.pcs[t];
    if TaskStep(a, p, b, q, t, c) {
      TaskStepFails(a, p, b, q, t, c);
    } else if InsideStep(a, p, b, q, t, c) {
      InsideStepFails(a, p, b, q, t, c);
    } else {
      ResizeStepFails(a, p, b, q, t, c);
    }
  }

  /** At move x the check of a resize made the operation of t fail, and at n it is still on its way to its end. */
  ghost predicate FailedAt(vs: seq<System>, moves: seq<Move1>, x: nat, n: nat, t: nat) {
    && x < n < |vs| == |moves| + 1 && moves[x].t == t
    && (forall y | x <= y <= n :: t < |vs[y].pcs|)
    && CheckThrows(vs[x].sh, vs[x].pcs[t], vs[x + 1].sh, vs[x + 1].pcs[t], moves[x].c)
    && forall y | x < y <= n :: Failing(vs[y].pcs[t]) == Some(vs[x].pcs[t].op)
  }

  /** What an operation that fails has behind it. */
  ghost predicate FailedRightly(vs: seq<System>, moves: seq<Move1>, n: nat, t: nat)
    requires n < |vs|
  {
    t < |vs[n].pcs| && Failing(vs[n].pcs[t]).Some? ==>
      Failing(vs[n].pcs[t]).value.Uprase? && exists x :: FailedAt(vs, moves, x, n, t)
  }

  /**
   * Along any run in time, an operation that fails or is on its way there is an upsert, and was sent there by the check of a
   * resize: lookups, updates and erasures never throw, and nobody does because the hashpower has changed.
   */
  lemma {:induction false} OnlyUpsertsFail(vs: seq<System>, moves: seq<Move1>, n: nat, t: nat)
    requires Run(vs, moves) && Initial(vs[0]) && InTime(vs, moves) && n < |vs|
    ensures FailedRightly(vs, moves, n, t)
  {
    hide *;
    if n == 0 {
      NobodyFails(vs, moves, t);
    } else {
      LastStep(vs, moves, n - 1);
      OnlyUpsertsFail(vs, moves, n - 1, t);
      RunInv(vs, moves, n - 1);
      StepIs(vs[n - 1], moves[n - 1].t, vs[n], moves[n - 1].c);
      StepFailsByCheck(vs[n - 1], moves[n - 1].t, vs[n], moves[n - 1].c);
      if moves[n - 1].t == t {
        FailsOn(vs, moves, n - 1, t);
      } else {
        StaysFailed(vs, moves, n - 1, t);
      }
    }
  }

  lemma NobodyFails(vs: seq<System>, moves: seq<Move1>, t: nat)
    requires |vs| > 0 && Initial(vs[0])
    ensures FailedRightly(vs, moves, 0, t)
  {
    hide FailedAt;
  }

  lemma LastStep(vs: seq<System>, moves: seq<Move1>, n: nat)
    requires Run(vs, moves) && n + 1 < |vs|
    ensures |vs| == |moves| + 1 && Step(vs[n], moves[n].t, vs[n + 1], moves[n].c)
  {
    hide Step;
  }

  /** A thread that moves goes on failing, is done with it, or fails at this move. */
  lemma FailsOn(vs: seq<System>, moves: seq<Move1>, n: nat, t: nat)
    requires n < |moves| && |vs| == |moves| + 1 && moves[n].t == t && t < |vs[n].pcs| == |vs[n + 1].pcs|
    requires FailsByCheck(vs[n].sh, vs[n].pcs[t], vs[n + 1].sh, vs[n + 1].pcs[t], moves[n].c)
    requires FailedRightly(vs, moves, n, t) && Inv(vs[n])
    ensures FailedRightly(vs, moves, n + 1, t)
  {
    hide CheckThrows, FailedAt, Inv;
    if Failing(vs[n + 1].pcs[t]).Some? {
      if CheckThrows(vs[n].sh, vs[n].pcs[t], vs[n + 1].sh, vs[n + 1].pcs[t], moves[n].c) {
        FailsNow(vs, moves, n, t);
      } else {
        var x :| FailedAt(vs, moves, x, n, t);
        FailedStill(vs, moves, x, n, t);
      }
    }
  }

  lemma FailsNow(vs: seq<System>, moves: seq<Move1>, n: nat, t: nat)
    requires n < |moves| && |vs| == |moves| + 1 && moves[n].t == t && t < |vs[n].pcs| == |vs[n + 1].pcs| && Inv(vs[n])
    requires CheckThrows(vs[n].sh, vs[n].pcs[t], vs[n + 1].sh, vs[n + 1].pcs[t], moves[n].c)
    ensures Failing(vs[n + 1].pcs[t]).Some? && Failing(vs[n + 1].pcs[t]).value.Uprase? && FailedAt(vs, moves, n, n + 1, t)
  {
    hide SharedOk, OwnersMatch, BornOk, CountOk, CheckResize;
    assert PcOk(vs[n].sh, vs[n].pcs[t]);
  }

  lemma FailedStill(vs: seq<System>, moves: seq<Move1>, x: nat, n: nat, t: nat)
    requires FailedAt(vs, moves, x, n, t) && n < |moves| && t < |vs[n + 1].pcs|
    requires Failing(vs[n + 1].pcs[t]) == Failing(vs[n].pcs[t])
    ensures FailedAt(vs, moves, x, n + 1, t)
  {
    hide CheckThrows, Failing;
  }

  lemma StaysFailed(vs: seq<System>, moves: seq<Move1>, n: nat, t: nat)
    requires n < |moves| && |vs| == |moves| + 1 && moves[n].t < |vs[n].pcs| == |vs[n + 1].pcs| && moves[n].t != t
    requires vs[n + 1].pcs == vs[n].pcs[moves[n].t := vs[n + 1].pcs[moves[n].t]]
    requires FailedRightly(vs, moves, n, t)
    ensures FailedRightly(vs, moves, n + 1, t)
  {
    hide FailedAt, Failing;
    if t < |vs[n].pcs| && Failing(vs[n].pcs[t]).Some? {
      var x :| FailedAt(vs, moves, x, n, t);
      FailedStill(vs, moves, x, n, t);
    }
  }

  // Resizes.

  /** At move x the search of t was exhausted, and at n its operation is still busy with the resize that this led to. */
  ghost predicate SearchedAt(vs: seq<System>, moves: seq<Move1>, x: nat, n: nat, t: nat) {
    && x < n < |vs| == |moves| + 1 && moves[x].t == t
    && (forall y | x <= y <= n :: t < |vs[y].pcs|)
    && SearchedInVain(vs[x].pcs[t], vs[x + 1].pcs[t])
    && forall y | x < y <= n :: Resizing(vs[y].pcs[t]) == Resizing(vs[x + 1].pcs[t])
  }

  ghost predicate ResizesRightly(vs: seq<System>, moves: seq<Move1>, n: nat, t: nat)
    requires n < |vs|
  {
    t < |vs[n].pcs| && Resizing(vs[n].pcs[t]).Some? ==> exists x :: SearchedAt(vs, moves, x, n, t)
  }

  /**
   * Along any run in time, whoever locks the table to double it has searched it at the hashpower that it means to leave, and
   * found its queue exhausted: a path that others have spoilt does not lead to a resize.
   */
  lemma {:induction false} ResizesOnlyAfterSearch(vs: seq<System>, moves: seq<Move1>, n: nat, t: nat)
    requires Run(vs, moves) && Initial(vs[0]) && InTime(vs, moves) && n < |vs|
    ensures ResizesRightly(vs, moves, n, t)
  {
    hide *;
    if n == 0 {
      NobodyResizes(vs, moves, t);
    } else {
      LastStep(vs, moves, n - 1);
      ResizesOnlyAfterSearch(vs, moves, n - 1, t);
      RunInv(vs, moves, n - 1);
      StepIs(vs[n - 1], moves[n - 1].t, vs[n], moves[n - 1].c);
      StepFailsByCheck(vs[n - 1], moves[n - 1].t, vs[n], moves[n - 1].c);
      ResizesOn(vs, moves, n - 1, t);
    }
  }

  lemma NobodyResizes(vs: seq<System>, moves: seq<Move1>, t: nat)
    requires |vs| > 0 && Initial(vs[0])
    ensures ResizesRightly(vs, moves, 0, t)
  {
    hide SearchedAt;
  }

  lemma ResizesOn(vs: seq<System>, moves: seq<Move1>, n: nat, t: nat)
    requires n < |moves| && |vs| == |moves| + 1 && moves[n].t < |vs[n].pcs| == |vs[n + 1].pcs|
    requires vs[n + 1].pcs == vs[n].pcs[moves[n].t := vs[n + 1].pcs[moves[n].t]]
    requires ResizesBySearch(vs[n].pcs[moves[n].t], vs[n + 1].pcs[moves[n].t]) && ResizesRightly(vs, moves, n, t)
    ensures ResizesRightly(vs, moves, n + 1, t)
  {
    hide Resizing, Exhausted, SearchedAt;
    if t < |vs[n].pcs| && Resizing(vs[n + 1].pcs[t]).Some? {
      if moves[n].t == t && SearchedInVain(vs[n].pcs[t], vs[n + 1].pcs[t]) {
        SearchedNow(vs, moves, n, t);
      } else {
        var x :| SearchedAt(vs, moves, x, n, t);
        SearchedStill(vs, moves, x, n, t);
      }
    }
  }

  lemma SearchedNow(vs: seq<System>, moves: seq<Move1>, n: nat, t: nat)
    requires n < |moves| && |vs| == |moves| + 1 && moves[n].t == t && t < |vs[n].pcs| == |vs[n + 1].pcs|
    requires SearchedInVain(vs[n].pcs[t], vs[n + 1].pcs[t])
    ensures SearchedAt(vs, moves, n, n + 1, t)
  {
    hide Resizing, Exhausted;
  }

  lemma SearchedStill(vs: seq<System>, moves: seq<Move1>, x: nat, n: nat, t: nat)
    requires SearchedAt(vs, moves, x, n, t) && n < |moves| && t < |vs[n + 1].pcs|
    requires Resizing(vs[n + 1].pcs[t]) == Resizing(vs[n].pcs[t])
    ensures SearchedAt(vs, moves, x, n + 1, t)
  {
    hide Resizing, Exhausted;
  }

  // Starting again.

  /** The hashpower that a thread has read and still counts on, if any. */
  function ReadBefore(pc: Pc): Option<nat> {
    match pc
    case Fetch(task) => Some(task.hp)
    case Acquire(task, _, _, _) => Some(task.hp)
    case Check(task, _, _, _) => Some(task.hp)
    case Migrate(task, _, _, _) => Some(task.hp)
    case Decrement(task, _, _, _) => Some(task.hp)
    case Free(task, _, _, _) => Some(task.hp)
    case Inside(task, _, _) => Some(task.hp)
    case Freed(task, _, _, _, _) => Some(task.hp)
    case Searching(_, hp, _) => Some(hp)
    case LockAll(_, hp, _, _, _) => Some(hp)
    case AllLocked(_, hp, _) => Some(hp)
    case Finish(_, hp, _, _) => Some(hp)
    case Drained(_, hp, _) => Some(hp)
    case Appended(_, hp, _) => Some(hp)
    case Release(_, _, next) => if next.Fetch? then Some(next.task.hp) else if next.Searching? then Some(next.hp) else None
    case _ => None
  }

  /** The hashpower has changed since thread t read it. */
  ghost predicate Outdated(v: System, t: nat) {
    t < |v.pcs| && ReadBefore(v.pcs[t]).Some? && ReadBefore(v.pcs[t]).value != v.sh.s.hp
  }

  /** Where such a thread can be: before its check of the hashpower, in its search, or about to lock the whole table. */
  lemma OutdatedPlaces(v: System, t: nat)
    requires Inv(v) && Outdated(v, t)
    ensures var p := v.pcs[t];
            || p.Fetch? || (p.Acquire? && p.taken == [] && p.todo != []) || p.Check? || p.Searching?
            || p.LockAll? || p.AllLocked? || (p.Release? && (p.next.Fetch? || p.next.Searching?))
  {
    hide SharedOk, OwnersMatch, BornOk, CountOk, Spinning, MigratedUpTo, LooseOk;
    assert PcOk(v.sh, v.pcs[t]);
    if v.pcs[t].Freed? {
      FreedFacts(v.sh, v.pcs[t].task, v.pcs[t].gen, v.pcs[t].taken, v.pcs[t].bucket, v.pcs[t].slot);
    }
  }

  /** Releasing the locks of a critical section. */
  lemma Leaves(u: System, v: System, t: nat, c: Choice) returns (w: System)
    requires Reaches(u, v) && OnItsOwn(v, t) && v.pcs[t].Release?
    ensures Reaches(u, w) && Locked(v, t, w, v.pcs[t].next)
  {
    hide OnItsOwn, Reaches;
    AloneInv(v, t);
    w := LeaveAlone(u, v, t, v.pcs[t].gen, v.pcs[t].taken, v.pcs[t].next, c);
  }

  /** The check of the hashpower fails, and the lock taken is released. */
  lemma ChecksAgain(u: System, v: System, t: nat, op: Op) returns (w: System)
    requires Reaches(u, v) && OnItsOwn(v, t) && Outdated(v, t) && v.pcs[t].Check? && v.pcs[t].task.op == op
    ensures Reaches(u, w) && Locked(v, t, w, Begin(op))
  {
    hide *;
    AloneInv(v, t);
    var c := AnyChoice(op);
    var q := CheckIs(v, t);
    Tasks(v.sh, v.pcs[t], v.sh, q, t, c);
    SameDataSelf(v.sh);
    var x := LockedStep(u, v, t, v.sh, q, c);
    LockedIs(v, t, x, q);
    w := Leaves(u, x, t, c);
    LockedThen(v, t, x, w, q, Begin(op));
  }

  lemma CheckIs(v: System, t: nat) returns (q: Pc)
    requires Outdated(v, t) && v.pcs[t].Check?
    ensures CheckHashpower(v.sh, v.pcs[t], v.sh, q)
    ensures q == Release(v.pcs[t].gen, v.pcs[t].taken, Begin(v.pcs[t].task.op))
  {
    q := Release(v.pcs[t].gen, v.pcs[t].taken, Begin(v.pcs[t].task.op));
  }

  /** Takes the first lock of a lock array that may have been replaced since. */
  lemma AcquiresAgain(u: System, v: System, t: nat, op: Op) returns (w: System)
    requires Reaches(u, v) && OnItsOwn(v, t) && Outdated(v, t) && v.pcs[t].Acquire? && v.pcs[t].task.op == op
    ensures Reaches(u, w) && Locked(v, t, w, Begin(op))
  {
    hide *;
    AloneInv(v, t);
    NotWaiting(v, t);
    var c := AnyChoice(op);
    var b, q := TakeIs(v, t);
    Tasks(v.sh, v.pcs[t], b, q, t, c);
    var x := LockedStep(u, v, t, b, q, c);
    LockedIs(v, t, x, q);
    StillOutdated(v, x, t);
    w := ChecksAgain(u, x, t, op);
    LockedThen(v, t, x, w, q, Begin(op));
  }

  lemma TakeIs(v: System, t: nat) returns (b: Shared, q: Pc)
    requires OnItsOwn(v, t) && Outdated(v, t) && v.pcs[t].Acquire?
    ensures TakeLock(v.sh, v.pcs[t], b, q, t) && SameData(v.sh, b)
    ensures q.Check? && q.task == v.pcs[t].task && ReadBefore(q) == ReadBefore(v.pcs[t])
  {
    hide OnItsOwn, Outdated, Inv, SharedOk, OwnersMatch, BornOk, CountOk;
    AloneInv(v, t);
    OutdatedPlaces(v, t);
    var p := v.pcs[t];
    AcquireRange(v, t);
    AcquireHasNone(p, p.gen, p.todo[0]);
    OthersFree(v, t, p.gen, p.todo[0]);
    b := v.sh.(owners := v.sh.owners[p.gen := v.sh.owners[p.gen][p.todo[0] := Some(t)]]);
    q := Check(p.task, p.gen, p.taken + [p.todo[0]], p.todo[1..]);
  }

  lemma AcquireRange(v: System, t: nat)
    requires Inv(v) && t < |v.pcs| && v.pcs[t].Acquire? && v.pcs[t].taken == [] && v.pcs[t].todo != []
    ensures v.pcs[t].gen < |v.sh.owners| && v.pcs[t].todo[0] < |v.sh.owners[v.pcs[t].gen]|
  {
    hide SharedOk, OwnersMatch, BornOk, CountOk, Task.Wanted, Task.Linked;
    var p := v.pcs[t];
    assert PcOk(v.sh, p);
    assert p.taken + p.todo == p.todo;
    WantedOk(v.sh, p.task, p.gen);
    assert p.todo[0] in p.task.Wanted();
  }

  lemma AcquireHasNone(pc: Pc, x: int, y: int)
    requires pc.Acquire? && pc.taken == []
    ensures !HasLock(pc, x, y)
  {
  }

  /** Only locks have changed hands, and the thread goes by the same hashpower as before. */
  lemma StillOutdated(v: System, x: System, t: nat)
    requires Outdated(v, t) && t < |x.pcs| && x.sh.s == v.sh.s && ReadBefore(x.pcs[t]) == ReadBefore(v.pcs[t])
    ensures Outdated(x, t)
  {
    hide ReadBefore;
  }

  lemma FetchesAgain(u: System, v: System, t: nat, op: Op) returns (w: System)
    requires Reaches(u, v) && OnItsOwn(v, t) && Outdated(v, t) && v.pcs[t].Fetch? && v.pcs[t].task.op == op
    ensures Reaches(u, w) && Locked(v, t, w, Begin(op))
  {
    hide *;
    AloneInv(v, t);
    WholeTable(v, t);
    var c := AnyChoice(op);
    var q := FetchIs(v.sh, v.pcs[t]);
    Tasks(v.sh, v.pcs[t], v.sh, q, t, c);
    SameDataSelf(v.sh);
    var x := LockedStep(u, v, t, v.sh, q, c);
    LockedIs(v, t, x, q);
    StillOutdated(v, x, t);
    w := AcquiresAgain(u, x, t, op);
    LockedThen(v, t, x, w, q, Begin(op));
  }

  lemma FetchIs(a: Shared, p: Pc) returns (q: Pc)
    requires p.Fetch? && |a.owners| > 0
    ensures FetchLocks(a, p, a, q) && q.Acquire? && q.task == p.task && ReadBefore(q) == ReadBefore(p)
  {
    hide Task.Wanted;
    q := Acquire(p.task, |a.owners| - 1, [], p.task.Wanted());
  }

  /** The whole table is locked in vain: the hashpower is found changed, and everything is unlocked. */
  lemma UnlocksAgain(u: System, v: System, t: nat, op: Op) returns (w: System)
    requires Reaches(u, v) && OnItsOwn(v, t) && Outdated(v, t) && v.pcs[t].AllLocked? && v.pcs[t].op == op
    ensures Reaches(u, w) && Locked(v, t, w, Begin(op))
  {
    hide *;
    AloneInv(v, t);
    WholeTable(v, t);
    var c := AnyChoice(op);
    var q, last := ResizeIs(v, t);
    Resizes(v.sh, v.pcs[t], v.sh, q, t, c);
    SameDataSelf(v.sh);
    var x := LockedStep(u, v, t, v.sh, q, c);
    LockedIs(v, t, x, q);
    AloneInv(x, t);
    UnlockRange(x, t);
    var y := UnlocksAll(u, x, t, q.gen, 0, Begin(op), c);
    var p := AtEnd(last, last, Begin(op));
    LockedIs(x, t, y, p);
    LockedThen(v, t, x, y, q, p);
    w := EndsAgain(u, y, t, last, Begin(op), c);
    LockedThen(v, t, y, w, p, Begin(op));
  }

  lemma ResizeIs(v: System, t: nat) returns (q: Pc, last: nat)
    requires Outdated(v, t) && v.pcs[t].AllLocked? && |v.sh.owners| > 0
    ensures last == |v.sh.owners| - 1 && q == UnlockAll(v.pcs[t].first, 0, last, Begin(v.pcs[t].op))
    ensures CheckResize(v.sh, v.pcs[t], v.sh, q, AnyChoice(v.pcs[t].op).throws)
  {
    last := |v.sh.owners| - 1;
    q := UnlockAll(v.pcs[t].first, 0, last, Begin(v.pcs[t].op));
  }

  /** The last array locked is still the last of the list. */
  lemma EndsAgain(u: System, v: System, t: nat, last: nat, next: Pc, c: Choice) returns (w: System)
    requires Reaches(u, v) && OnItsOwn(v, t) && v.pcs[t] == AtEnd(last, last, next) && last + 1 == |v.sh.owners|
    ensures Reaches(u, w) && Locked(v, t, w, next)
  {
    hide OnItsOwn, ThreadStep, Reaches, Inv, Split.AllMigrated;
    AloneInv(v, t);
    Resizes(v.sh, v.pcs[t], v.sh, next, t, c);
    w := Goes(u, v, t, v.sh, next, c);
    StaysAlone(v, t, w);
  }

  lemma LocksAgain(u: System, v: System, t: nat, op: Op) returns (w: System)
    requires Reaches(u, v) && OnItsOwn(v, t) && Outdated(v, t) && v.pcs[t].LockAll? && v.pcs[t].op == op
    ensures Reaches(u, w) && Locked(v, t, w, Begin(op))
  {
    hide *;
    AloneInv(v, t);
    InvFacts(v);
    var p := v.pcs[t];
    LockAllRange(v.sh, p);
    var x := LocksAll(u, v, t, op, p.hp, p.first, p.gen, p.l);
    var q := AllLocked(op, p.hp, p.first);
    LockedIs(v, t, x, q);
    ReadsSame(p, q);
    StillOutdated(v, x, t);
    w := UnlocksAgain(u, x, t, op);
    LockedThen(v, t, x, w, q, Begin(op));
  }

  lemma ReadsSame(p: Pc, q: Pc)
    requires (p.LockAll? || p.Searching?) && q.AllLocked? && q.hp == p.hp
    ensures ReadBefore(q) == ReadBefore(p)
  {
  }

  /** The search goes on until it takes a lock, or until it is exhausted and the whole table is locked. */
  lemma SearchesAgain(u: System, v: System, t: nat, op: Op) returns (w: System)
    requires Reaches(u, v) && OnItsOwn(v, t) && Outdated(v, t) && v.pcs[t].Searching? && v.pcs[t].op == op
    ensures Reaches(u, w) && Locked(v, t, w, Begin(op))
  {
    hide *;
    AloneInv(v, t);
    var p, c := v.pcs[t], AnyChoice(op);
    if Exhausted(p.search) {
      var x := LocksTable(u, v, t, op);
      var q := AllLocked(op, p.hp, |v.sh.owners| - 1);
      LockedIs(v, t, x, q);
      ReadsSame(p, q);
      StillOutdated(v, x, t);
      w := UnlocksAgain(u, x, t, op);
      LockedThen(v, t, x, w, q, Begin(op));
    } else {
      SearchState(v, t);
      var q := SearchIs(v.sh, p);
      Insides(v.sh, p, v.sh, q, t, c);
      SameDataSelf(v.sh);
      var x := LockedStep(u, v, t, v.sh, q, c);
      LockedIs(v, t, x, q);
      StillOutdated(v, x, t);
      w := FetchesAgain(u, x, t, op);
      LockedThen(v, t, x, w, q, Begin(op));
    }
  }

  lemma SearchIs(a: Shared, p: Pc) returns (q: Pc)
    requires p.Searching? && !Exhausted(p.search) && SearchOk(p.hp, Home(p.hp, p.op.key), Other(p.hp, p.op.key), p.search)
    ensures (SearchOn(a, p, a, q) || SearchEnds(a, p, a, q))
    ensures q.Fetch? && q.task.op == p.op && ReadBefore(q) == ReadBefore(p)
  {
    hide Exhausted, SearchOk, Home, Other, Looking;
    var s := p.search;
    if s.Found? {
      q := Fetch(Task(p.op, p.hp, if s.depth == 0 then Settle(s.path) else Move(s.path, s.depth, s.depth)));
    } else {
      CanLook(p.hp, Home(p.hp, p.op.key), Other(p.hp, p.op.key), s);
      q := Fetch(Task(p.op, p.hp, Look(s)));
    }
  }

  /** Wherever it is, a thread that goes by an old hashpower is led back to the beginning of its operation, if nobody disturbs it. */
  lemma StartsAgain(u: System, v: System, t: nat, op: Op) returns (w: System)
    requires Reaches(u, v) && OnItsOwn(v, t) && Outdated(v, t) && FlightOf(v.pcs[t]) == Pending(op)
    ensures Reaches(u, w) && Locked(v, t, w, Begin(op))
  {
    hide *;
    AloneInv(v, t);
    OutdatedPlaces(v, t);
    PendingIs(v.pcs[t], op);
    if v.pcs[t].Release? {
      var c, q := AnyChoice(op), v.pcs[t].next;
      var x := Leaves(u, v, t, c);
      LockedIs(v, t, x, q);
      ReleaseReads(v.pcs[t]);
      StillOutdated(v, x, t);
      w := PlacesAgain(u, x, t, op);
      LockedThen(v, t, x, w, q, Begin(op));
    } else {
      w := PlacesAgain(u, v, t, op);
    }
  }

  lemma PlacesAgain(u: System, v: System, t: nat, op: Op) returns (w: System)
    requires Reaches(u, v) && OnItsOwn(v, t) && Outdated(v, t)
    requires || ((v.pcs[t].Fetch? || v.pcs[t].Acquire? || v.pcs[t].Check?) && v.pcs[t].task.op == op)
             || ((v.pcs[t].Searching? || v.pcs[t].LockAll? || v.pcs[t].AllLocked?) && v.pcs[t].op == op)
    ensures Reaches(u, w) && Locked(v, t, w, Begin(op))
  {
    hide *;
    AloneInv(v, t);
    match v.pcs[t]
    case Fetch(_) => w := FetchesAgain(u, v, t, op);
    case Acquire(_, _, _, _) => w := AcquiresAgain(u, v, t, op);
    case Check(_, _, _, _) => w := ChecksAgain(u, v, t, op);
    case Searching(_, _, _) => w := SearchesAgain(u, v, t, op);
    case LockAll(_, _, _, _, _) => w := LocksAgain(u, v, t, op);
    case AllLocked(_, _, _) => w := UnlocksAgain(u, v, t, op);
  }

  lemma PendingIs(p: Pc, op: Op)
    requires FlightOf(p) == Pending(op)
    ensures (p.Fetch? || p.Acquire? || p.Check?) ==> p.task.op == op
    ensures (p.Searching? || p.LockAll? || p.AllLocked?) ==> p.op == op
    ensures p.Release? && p.next.Fetch? ==> p.next.task.op == op
    ensures p.Release? && p.next.Searching? ==> p.next.op == op
  {
  }

  lemma ReleaseReads(p: Pc)
    requires p.Release? && (p.next.Fetch? || p.next.Searching?)
    ensures ReadBefore(p.next) == ReadBefore(p)
  {
  }

  /**
   * So an operation that was overtaken by a resize, and is then left alone, ends like one that has only now been called: with
   * its effect and the right answer, unless its key is new and no slot can be freed for it within reach.
   */
  lemma OvertakenOperationEnds(u: System, v: System, t: nat, op: Op) returns (w: System)
    requires Reaches(u, v) && OnItsOwn(v, t) && Outdated(v, t) && FlightOf(v.pcs[t]) == Pending(op)
    ensures Reaches(u, w) && if NoPlace(v.sh, op) then Stuck(v, t, op, w) else Finished(v, t, op, w)
  {
    hide *;
    AloneInv(v, t);
    var x := StartsAgain(u, v, t, op);
    LockedIs(v, t, x, Begin(op));
    w := BeginsAlone(u, x, t, op);
    SinceBegun(v, x, t, op, w);
  }

  lemma SinceBegun(v: System, x: System, t: nat, op: Op, w: System)
    requires Locked(v, t, x, Begin(op)) && if NoPlace(x.sh, op) then Stuck(x, t, op, w) else Finished(x, t, op, w)
    ensures if NoPlace(v.sh, op) then Stuck(v, t, op, w) else Finished(v, t, op, w)
  {
    hide NoPlace, Stuck, Finished, OnItsOwn, SameData;
    SinceThen(v, x, t, op, w);
  }
}
