/** What the protocol guarantees to its users: exclusion, one effect per operation, and that no work is lost. */
module Guarantees {
  import opened Bits
  import opened Params
  import opened Hashing
  import opened Rows
  import opened Lazy
  import opened Locks
  import opened State
  import opened Paths
  import opened Records
  import opened PathSearch
  import Frontier
  import opened Guards
  import opened Protocol
  import opened Exclusion
  import opened Steps

  // Mutual exclusion.

  /** A thread that has found the hashpower unchanged and has not yet released its first lock; it may still wait for others. */
  predicate PastCheck(pc: Pc) {
    IsInside(pc) || (pc.Acquire? && pc.taken != [])
  }

  lemma TakenInside(v: System, t: nat, l: nat)
    requires Inv(v) && t < |v.pcs| && PastCheck(v.pcs[t]) && l in v.pcs[t].taken
    ensures |v.sh.owners| > 0 && v.pcs[t].gen == v.sh.Last() && v.pcs[t].task.hp == v.sh.s.hp
    ensures l < |v.sh.owners[v.sh.Last()]| && v.sh.owners[v.sh.Last()][l] == Some(t)
  {
    hide Inv, SharedOk, OwnersMatch, Task.Linked, Task.Wanted, LockInd, MigratedUpTo, TaskOk;
    InvFacts(v);
    ThreadHas(v, t);
    var p := v.pcs[t];
    var x :| 0 <= x < |p.taken| && p.taken[x] == l;
    if p.Freed? {
      FreedFacts(v.sh, p.task, p.gen, p.taken, p.bucket, p.slot);
    } else {
      WantedOk(v.sh, p.task, p.gen);
      assert p.Acquire? ==> (p.taken + p.todo)[x] == l;
    }
    assert HasLock(p, p.gen, l);
  }

  /**
   * A thread that took a lock and passed the check of the hashpower holds it in the current lock array at the current
   * hashpower; nobody else past the check then holds a lock of the same stripe, and nobody has locked the whole table.
   */
  lemma MutualExclusion(v: System, t: nat, u: nat, l: nat)
    requires Inv(v) && t < |v.pcs| && u < |v.pcs| && u != t && PastCheck(v.pcs[t]) && l in v.pcs[t].taken
    ensures v.pcs[t].gen == v.sh.Last() && v.pcs[t].task.hp == v.sh.s.hp
    ensures PastCheck(v.pcs[u]) ==> l !in v.pcs[u].taken
    ensures !HasAll(v.pcs[u])
  {
    TakenInside(v, t, l);
    if PastCheck(v.pcs[u]) && l in v.pcs[u].taken {
      TakenInside(v, u, l);
    }
    if HasAll(v.pcs[u]) {
      ResizerOwns(v, u);
    }
    hide Inv, SharedOk, OwnersMatch;
  }

  /** If thread t is past the check and holds lock l, that is the current lock, and u neither holds it nor the whole table. */
  ghost predicate Excludes(v: System, t: nat, u: nat, l: nat) {
    t < |v.pcs| && u < |v.pcs| && u != t && PastCheck(v.pcs[t]) && l in v.pcs[t].taken ==>
      && v.pcs[t].gen == v.sh.Last() && v.pcs[t].task.hp == v.sh.s.hp
      && (PastCheck(v.pcs[u]) ==> l !in v.pcs[u].taken) && !HasAll(v.pcs[u])
  }

  /** Exclusion, for all threads and stripes. */
  ghost predicate Exclusive(v: System) {
    forall t: nat, u: nat, l: nat :: Excludes(v, t, u, l)
  }

  lemma InvIsExclusive(v: System)
    requires Inv(v)
    ensures Exclusive(v)
  {
    hide Inv;
    forall t: nat, u: nat, l: nat
      ensures Excludes(v, t, u, l)
    {
      if t < |v.pcs| && u < |v.pcs| && u != t && PastCheck(v.pcs[t]) && l in v.pcs[t].taken {
        MutualExclusion(v, t, u, l);
      }
    }
  }

  // The search.

  /**
   * Every look of a search brings it nearer to its end, and leaves its queue within its bounds, whatever other threads have
   * done to the bucket looked at.
   */
  lemma SearchAdvances(v: System, t: nat, b: Shared, q: Pc)
    requires Inv(v) && t < |v.pcs| && LookInside(v.sh, v.pcs[t], b, q)
    ensures q.Release? && q.next.Searching? && 0 <= Looks(q.next.search) < Looks(v.pcs[t].task.goal.search)
    ensures q.next.search.Queued? ==> |q.next.search.items| <= Frontier.MaxCuckooCount(SLOTS)
  {
    hide Inv, Task.Wanted, SearchOk, Next, Looks, Looking, LooksAt, Home, Other, MigratedUpTo;
    InsideFacts(v, t);
    var task, s := v.pcs[t].task, v.pcs[t].task.goal.search;
    var i := LooksAt(s);
    NextIsCloser(task.hp, task.First(), task.Second(), s, v.sh.s.cur[i]);
    LookIsOk(task, s, v.sh.s.cur[i]);
    HaltedIs(task.hp, task.First(), task.Second(), q.next.search);
  }

  // Linearization.

  /** How far the operation of a thread has come. */
  datatype Flight = NoOp | Pending(op: Op) | Took(op: Op, answer: Option<Value>)

  /** At a place where no lock is held. */
  function LooseFlight(pc: Pc): Flight {
    match pc
    case Begin(op) => Pending(op)
    case Fetch(task) => Pending(task.op)
    case Searching(op, _, _) => Pending(op)
    case Done(op, answer) => Took(op, answer)
    case Thrown(op) => Pending(op)
    case _ => NoOp
  }

  function FlightOf(pc: Pc): Flight {
    match pc
    case Acquire(task, _, _, _) => Pending(task.op)
    case Check(task, _, _, _) => Pending(task.op)
    case Migrate(task, _, _, _) => Pending(task.op)
    case Decrement(task, _, _, _) => Pending(task.op)
    case Free(task, _, _, _) => Pending(task.op)
    case Inside(task, _, _) => Pending(task.op)
    case Freed(task, _, _, _, _) => Pending(task.op)
    case Release(_, _, next) => LooseFlight(next)
    case LockAll(op, _, _, _, _) => Pending(op)
    case AllLocked(op, _, _) => Pending(op)
    case Finish(op, _, _, _) => Pending(op)
    case Drained(op, _, _) => Pending(op)
    case Appended(op, _, _) => Pending(op)
    case UnlockAll(_, _, _, next) => LooseFlight(next)
    case AtEnd(_, _, next) => LooseFlight(next)
    case _ => LooseFlight(pc)
  }

  /** The step has no effect on the map. */
  ghost predicate Silent(a: Shared, b: Shared) {
    b.m == a.m && b.log == a.log
  }

  /** The step is the one at which the operation takes effect. */
  ghost predicate Commits(a: Shared, p: Pc, b: Shared, q: Pc) {
    && FlightOf(p).Pending? && FlightOf(q).Took? && FlightOf(q).op == FlightOf(p).op
    && Logged(a, b, FlightOf(p).op, FlightOf(q).answer)
  }

  /** What a step does for the operation of its thread: nothing visible, its one effect, its start or its return. */
  ghost predicate OneEffect(a: Shared, p: Pc, b: Shared, q: Pc) {
    || (Silent(a, b) && FlightOf(q) == FlightOf(p))
    || Commits(a, p, b, q)
    || (Silent(a, b) && p.Idle? && FlightOf(q).Pending?)
    || (Silent(a, b) && q.Idle? && (p.Done? || p.Thrown?))
  }

  /** The hashpower and the list of lock arrays never shrink, and no array is added to a full-sized one. */
  ghost predicate OnlyGrows(a: Shared, b: Shared) {
    b.s.hp >= a.s.hp && (|b.owners| == |a.owners| || (|b.owners| > |a.owners| && |a.locks| < MaxLocks()))
  }

  lemma StripeSilent(a: Shared, b: Shared, l: nat)
    requires StripeMoved(a, b, l)
    ensures Silent(a, b) && OnlyGrows(a, b)
  {
  }

  lemma StartingEffect(a: Shared, p: Pc, b: Shared, q: Pc)
    requires ReadHashpower(a, p, b, q) || FetchLocks(a, p, b, q)
    ensures OneEffect(a, p, b, q) && OnlyGrows(a, b)
  {
    hide Task.Wanted;
  }

  lemma LockingEffect(a: Shared, p: Pc, b: Shared, q: Pc, t: nat)
    requires TakeLock(a, p, b, q, t) || CheckHashpower(a, p, b, q)
    ensures OneEffect(a, p, b, q) && OnlyGrows(a, b)
  {
  }

  lemma MigratingEffect(a: Shared, p: Pc, b: Shared, q: Pc)
    requires SkipMigrated(a, p, b, q) || MigrateOne(a, p, b, q) || DecrementRemaining(a, p, b, q) || FreeOld(a, p, b, q)
    ensures OneEffect(a, p, b, q) && OnlyGrows(a, b)
  {
    hide StripeMoved;
    if MigrateOne(a, p, b, q) {
      StripeSilent(a, b, p.taken[p.x]);
    }
  }

  lemma ReleasingEffect(a: Shared, p: Pc, b: Shared, q: Pc)
    requires PcOk(a, p) && ReleaseOne(a, p, b, q)
    ensures OneEffect(a, p, b, q) && OnlyGrows(a, b)
  {
    hide TaskOk, Spinning, Checked, MigratedUpTo, FreedOk, Distinct, SetOwner;
    if p.taken != [] {
      OwnerSilent(a, b, p.gen, p.taken[0], None);
    }
  }

  lemma CallEffect(a: Shared, p: Pc, b: Shared, q: Pc, op: Op)
    requires Invoke(a, p, b, q, op) || Return(a, p, b, q)
    ensures OneEffect(a, p, b, q) && OnlyGrows(a, b)
  {
  }

  lemma TaskStepEffect(a: Shared, p: Pc, b: Shared, q: Pc, t: nat, c: Choice)
    requires PcOk(a, p) && TaskStep(a, p, b, q, t, c)
    ensures OneEffect(a, p, b, q) && OnlyGrows(a, b)
  {
    hide *;
    TaskStepCases(a, p, b, q, t, c);
    if ReadHashpower(a, p, b, q) || FetchLocks(a, p, b, q) {
      StartingEffect(a, p, b, q);
    } else if TakeLock(a, p, b, q, t) || CheckHashpower(a, p, b, q) {
      LockingEffect(a, p, b, q, t);
    } else if ReleaseOne(a, p, b, q) {
      ReleasingEffect(a, p, b, q);
    } else if Invoke(a, p, b, q, c.op) || Return(a, p, b, q) {
      CallEffect(a, p, b, q, c.op);
    } else {
      MigratingEffect(a, p, b, q);
    }
  }

  lemma ChangedEffect(a: Shared, b: Shared, op: Op, i: nat, j: nat)
    requires ChangedAt(a, b, op, i, j)
    ensures Logged(a, b, op, Some(a.s.cur[i][j].value)) && OnlyGrows(a, b)
  {
    hide Logged, LockInd;
  }

  lemma AddedEffect(a: Shared, b: Shared, op: Op, i: nat, j: nat)
    requires AddedAt(a, b, op, i, j)
    ensures Logged(a, b, op, None) && OnlyGrows(a, b)
  {
    hide Logged, LockInd, PartialOf;
  }

  lemma OperateEffect(a: Shared, p: Pc, b: Shared, q: Pc, pos: Option<(nat, nat)>, free: Option<(nat, nat)>)
    requires OperateInside(a, p, b, q, pos, free)
    ensures OneEffect(a, p, b, q) && OnlyGrows(a, b)
  {
    hide FoundAt, Full, LockInd, Home, Other, Logged, ChangedAt, AddedAt, Start, Task.Wanted;
    if pos.Some? {
      ChangedEffect(a, b, p.task.op, pos.value.0, pos.value.1);
    } else if p.task.op.Uprase? && free.Some? {
      AddedEffect(a, b, p.task.op, free.value.0, free.value.1);
    }
  }

  lemma LookEffect(a: Shared, p: Pc, b: Shared, q: Pc)
    requires LookInside(a, p, b, q)
    ensures OneEffect(a, p, b, q) && OnlyGrows(a, b)
  {
    hide Next, Looking, LooksAt, Home, Other;
  }

  lemma MoveEffect(a: Shared, p: Pc, b: Shared, q: Pc)
    requires MoveInside(a, p, b, q)
    ensures OneEffect(a, p, b, q) && OnlyGrows(a, b)
  {
    hide LockInd, Home, Other, Displaced, MayMove, Start;
  }

  lemma SettleEffect(a: Shared, p: Pc, b: Shared, q: Pc)
    requires SettleInside(a, p, b, q)
    ensures OneEffect(a, p, b, q) && OnlyGrows(a, b)
  {
    hide LockInd, Home, Other, Start;
  }

  lemma DropEffect(a: Shared, p: Pc, b: Shared, q: Pc, x: nat)
    requires DropExtra(a, p, b, q, x)
    ensures OneEffect(a, p, b, q) && OnlyGrows(a, b)
  {
    hide LockInd, Home, Other;
  }

  lemma FreedEffect(a: Shared, p: Pc, b: Shared, q: Pc, pos: Option<(nat, nat)>)
    requires InsertFreed(a, p, b, q, pos)
    ensures OneEffect(a, p, b, q) && OnlyGrows(a, b)
  {
    hide FoundAt, LockInd, Home, Other, Logged, ChangedAt, AddedAt;
    if pos.Some? {
      ChangedEffect(a, b, p.task.op, pos.value.0, pos.value.1);
    } else {
      AddedEffect(a, b, p.task.op, p.bucket, p.slot);
    }
  }

  lemma SearchingEffect(a: Shared, p: Pc, b: Shared, q: Pc, c: Choice)
    requires SearchOn(a, p, b, q) || SearchEnds(a, p, b, q) || SearchFails(a, p, b, q)
    ensures OneEffect(a, p, b, q) && OnlyGrows(a, b)
  {
    hide Home, Other, Looking, Exhausted;
  }

  lemma InsideStepEffect(a: Shared, p: Pc, b: Shared, q: Pc, t: nat, c: Choice)
    requires InsideStep(a, p, b, q, t, c)
    ensures OneEffect(a, p, b, q) && OnlyGrows(a, b)
  {
    hide *;
    InsideStepCases(a, p, b, q, t, c);
    if OperateInside(a, p, b, q, c.pos, c.free) {
      OperateEffect(a, p, b, q, c.pos, c.free);
    } else if LookInside(a, p, b, q) {
      LookEffect(a, p, b, q);
    } else if MoveInside(a, p, b, q) {
      MoveEffect(a, p, b, q);
    } else if SettleInside(a, p, b, q) {
      SettleEffect(a, p, b, q);
    } else if DropExtra(a, p, b, q, c.n) {
      DropEffect(a, p, b, q, c.n);
    } else if InsertFreed(a, p, b, q, c.pos) {
      FreedEffect(a, p, b, q, c.pos);
    } else {
      SearchingEffect(a, p, b, q, c);
    }
  }

  lemma LockAllEffect(a: Shared, p: Pc, b: Shared, q: Pc, t: nat)
    requires LockNext(a, p, b, q, t) || LockNextArray(a, p, b, q)
    ensures OneEffect(a, p, b, q) && OnlyGrows(a, b)
  {
    if LockNext(a, p, b, q, t) {
      OwnerSilent(a, b, p.gen, p.l, Some(t));
    }
    hide SetOwner;
  }

  lemma OwnerSilent(a: Shared, b: Shared, x: int, y: int, who: Option<nat>)
    requires SetOwner(a, b, x, y, who)
    ensures Silent(a, b) && OnlyGrows(a, b)
  {
  }

  lemma CheckResizeEffect(a: Shared, p: Pc, b: Shared, q: Pc, throws: bool)
    requires CheckResize(a, p, b, q, throws)
    ensures OneEffect(a, p, b, q) && OnlyGrows(a, b)
  {
  }

  lemma UnlockAllEffect(a: Shared, p: Pc, b: Shared, q: Pc)
    requires PcOk(a, p) && (UnlockNext(a, p, b, q) || CompareWithEnd(a, p, b, q))
    ensures OneEffect(a, p, b, q) && OnlyGrows(a, b)
  {
    hide TaskOk, Spinning, Checked, MigratedUpTo, FreedOk;
  }

  lemma FinishingEffect(a: Shared, p: Pc, b: Shared, q: Pc)
    requires FinishOne(a, p, b, q) || Drain(a, p, b, q)
    ensures OneEffect(a, p, b, q) && OnlyGrows(a, b)
  {
    hide StripeMoved;
    if FinishOne(a, p, b, q) && !a.locks[p.l].isMigrated {
      StripeSilent(a, b, p.l);
    }
  }

  lemma DoublingEffect(a: Shared, p: Pc, b: Shared, q: Pc, t: nat)
    requires AppendLocks(a, p, b, q, t) || PublishDoubled(a, p, b, q)
    ensures OneEffect(a, p, b, q) && OnlyGrows(a, b)
  {
    hide GrownLocks, Flags, Split.Published, PublishedLocks, Split.Wf, HashSize;
  }

  lemma ResizeStepEffect(a: Shared, p: Pc, b: Shared, q: Pc, t: nat, c: Choice)
    requires PcOk(a, p) && ResizeStep(a, p, b, q, t, c)
    ensures OneEffect(a, p, b, q) && OnlyGrows(a, b)
  {
    hide *;
    ResizeStepCases(a, p, b, q, t, c);
    if FinishOne(a, p, b, q) || Drain(a, p, b, q) {
      FinishingEffect(a, p, b, q);
    } else if AppendLocks(a, p, b, q, t) || PublishDoubled(a, p, b, q) {
      DoublingEffect(a, p, b, q, t);
    } else if UnlockNext(a, p, b, q) || CompareWithEnd(a, p, b, q) {
      UnlockAllEffect(a, p, b, q);
    } else if CheckResize(a, p, b, q, c.throws) {
      CheckResizeEffect(a, p, b, q, c.throws);
    } else {
      LockAllEffect(a, p, b, q, t);
    }
  }

  /**
   * Every step of every thread either leaves the map alone or applies the effect of exactly one operation, the one that
   * its thread is executing, with the answer that the map gives at that moment; and it does so once per operation,
   * between its start and its return.
   */
  lemma StepRefines(v: System, t: nat, w: System, c: Choice)
    requires Inv(v) && Step(v, t, w, c) && !Overtaken(v, t)
    ensures OneEffect(v.sh, v.pcs[t], w.sh, w.pcs[t]) && OnlyGrows(v.sh, w.sh)
    ensures Commits(v.sh, v.pcs[t], w.sh, w.pcs[t]) ==>
              FlightOf(w.pcs[t]).answer == Answer(FlightOf(w.pcs[t]).op, v.sh.m)
  {
    hide *;
    StepIs(v, t, w, c);
    InvFacts(v);
    var a, p, b, q := v.sh, v.pcs[t], w.sh, w.pcs[t];
    if TaskStep(a, p, b, q, t, c) {
      TaskStepEffect(a, p, b, q, t, c);
    } else if InsideStep(a, p, b, q, t, c) {
      InsideStepEffect(a, p, b, q, t, c);
    } else {
      ResizeStepEffect(a, p, b, q, t, c);
    }
    StepKeeps(v, t, w, c);
    InvFacts(w);
    if Commits(a, p, b, q) {
      CommitIsRight(a, p, b, q);
    }
  }

  lemma CommitIsRight(a: Shared, p: Pc, b: Shared, q: Pc)
    requires SharedOk(a) && SharedOk(b) && Commits(a, p, b, q)
    ensures FlightOf(q).answer == Answer(FlightOf(q).op, a.m)
  {
    hide Good, Replay, Answer, FlightOf;
    var n := |a.log|;
    assert b.log[n].answer == Answer(b.log[n].op, Replay(b.log[..n]));
    assert b.log[..n] == a.log;
  }

  /** Along any run, the map is the one that the logged effects lead to, and every answer given was right. */
  lemma RunRefines(vs: seq<System>, moves: seq<Move1>, n: nat)
    requires Run(vs, moves) && Initial(vs[0]) && InTime(vs, moves) && n < |vs|
    ensures vs[n].sh.m == Replay(vs[n].sh.log) && RightAnswers(vs[n].sh.log)
    ensures vs[n].sh.s.Wf() && Unique(vs[n].sh.s.Effective()) && Total(vs[n].sh.locks) == |vs[n].sh.m|
  {
    RunInv(vs, moves, n);
    hide Placed, Unique, Rows.Holds, LockInd, Replay, RightAnswers, Total, OwnersMatch, PcOk, Initial, Step;
  }

  // Freeing the old buckets.

  /** The thread that frees the old buckets does so when all stripes have been moved, and loses nothing. */
  lemma FreeingLosesNothing(v: System, t: nat)
    requires Inv(v) && t < |v.pcs| && v.pcs[t].Free?
    ensures v.sh.s.AllMigrated() && v.sh.s.Wf() && v.sh.s.Effective() == v.sh.s.cur
    ensures v.sh.s.(past := []).Wf() && v.sh.s.(past := []).Effective() == v.sh.s.Effective()
  {
    hide Represents, Replay, RightAnswers, OwnersMatch, LockInd, TaskOk, Spinning, MigratedUpTo;
    FreeKeeps(v.sh.s);
    AllMigratedIsCurrent(v.sh.s);
  }

  // When no comparison can come too late.

  lemma FullArray(a: Shared)
    requires SharedOk(a) && HashSize(a.s.hp) >= MaxLocks()
    ensures |a.locks| >= MaxLocks()
  {
    hide Represents, Replay, RightAnswers, LockInd;
  }

  lemma SingleArray(v: System, t: nat)
    requires |v.sh.owners| == 1
    ensures !Overtaken(v, t)
  {
  }

  /**
   * In a table created with at least as many buckets as there can be locks, the one lock array is never replaced: the
   * invariant holds along all runs, with any number of threads.
   */
  lemma {:induction false} BigTables(vs: seq<System>, moves: seq<Move1>, n: nat)
    requires Run(vs, moves) && Initial(vs[0]) && HashSize(vs[0].sh.s.hp) >= MaxLocks() && n < |vs|
    ensures Inv(vs[n]) && |vs[n].sh.owners| == 1 && HashSize(vs[n].sh.s.hp) >= MaxLocks()
  {
    hide Inv, Step, Overtaken, SharedOk, OneEffect;
    if n == 0 {
      InitialInv(vs[0]);
    } else {
      var v, w, m := vs[n - 1], vs[n], moves[n - 1];
      BigTables(vs, moves, n - 1);
      SingleArray(v, m.t);
      StepKeeps(v, m.t, w, m.c);
      StepRefines(v, m.t, w, m.c);
      InvFacts(v);
      FullArray(v.sh);
      Pow2Increasing(v.sh.s.hp, w.sh.s.hp);
    }
  }

  lemma BigTablesInTime(vs: seq<System>, moves: seq<Move1>)
    requires Run(vs, moves) && Initial(vs[0]) && HashSize(vs[0].sh.s.hp) >= MaxLocks()
    ensures InTime(vs, moves)
  {
    forall x | 0 <= x < |moves|
      ensures !Overtaken(vs[x], moves[x].t)
    {
      BigTables(vs, moves, x);
      SingleArray(vs[x], moves[x].t);
    }
    hide Run, Initial, Overtaken;
  }

  /** So in such a table the map is right along all runs. */
  lemma BigTablesRefine(vs: seq<System>, moves: seq<Move1>, n: nat)
    requires Run(vs, moves) && Initial(vs[0]) && HashSize(vs[0].sh.s.hp) >= MaxLocks() && n < |vs|
    ensures vs[n].sh.m == Replay(vs[n].sh.log) && RightAnswers(vs[n].sh.log)
    ensures vs[n].sh.s.Wf() && Unique(vs[n].sh.s.Effective()) && Total(vs[n].sh.locks) == |vs[n].sh.m|
  {
    hide *;
    BigTablesInTime(vs, moves);
    RunRefines(vs, moves, n);
  }
}
