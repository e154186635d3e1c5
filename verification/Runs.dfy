/** Runs of the machine as a relation between states, and steps that extend them. */
module Runs {
  import opened Paths
  import opened Guards
  import opened Protocol
  import opened Exclusion
  import opened Steps

  /** Some run leads from v to w. */
  ghost predicate Reaches(v: System, w: System) {
    exists vs, moves :: Run(vs, moves) && vs[0] == v && vs[|moves|] == w
  }

  lemma ReachesSelf(v: System)
    ensures Reaches(v, v)
  {
    assert Run([v], []);
  }

  lemma ReachesStep(v: System, t: nat, w: System, c: Choice)
    requires Step(v, t, w, c)
    ensures Reaches(v, w)
  {
    hide Step;
    var vs, moves := [v, w], [Move1(t, c)];
    assert Run(vs, moves);
  }

  lemma RunsJoin(vs: seq<System>, moves: seq<Move1>, us: seq<System>, others: seq<Move1>)
    requires Run(vs, moves) && Run(us, others) && us[0] == vs[|moves|]
    ensures Run(vs + us[1..], moves + others)
  {
    hide Step;
    var all, both := vs + us[1..], moves + others;
    forall x | 0 <= x < |both|
      ensures Step(all[x], both[x].t, all[x + 1], both[x].c)
    {
      if x >= |moves| {
        assert all[x] == us[x - |moves|] && all[x + 1] == us[x + 1 - |moves|];
      }
    }
  }

  lemma ReachesOn(u: System, v: System, w: System)
    requires Reaches(u, v) && Reaches(v, w)
    ensures Reaches(u, w)
  {
    hide Step;
    var vs, moves :| Run(vs, moves) && vs[0] == u && vs[|moves|] == v;
    var us, others :| Run(us, others) && us[0] == v && us[|others|] == w;
    RunsJoin(vs, moves, us, others);
    assert (vs + us[1..])[|moves + others|] == w;
  }

  /** Thread t's step from v to the place q and the shared state b, which extends a run that began at u. */
  lemma Goes(u: System, v: System, t: nat, b: Shared, q: Pc, c: Choice) returns (w: System)
    requires Reaches(u, v) && t < |v.pcs| && ThreadStep(v.sh, v.pcs[t], b, q, t, c)
    ensures w == System(b, v.pcs[t := q]) && Step(v, t, w, c) && Reaches(u, w)
    ensures !Overtaken(v, t) && Inv(v) ==> Inv(w)
  {
    hide ThreadStep, Inv, Overtaken, Reaches;
    w := System(b, v.pcs[t := q]);
    ReachesStep(v, t, w, c);
    ReachesOn(u, v, w);
    if !Overtaken(v, t) && Inv(v) {
      StepKeeps(v, t, w, c);
    }
  }

  lemma Tasks(a: Shared, p: Pc, b: Shared, q: Pc, t: nat, c: Choice)
    requires || ReadHashpower(a, p, b, q) || FetchLocks(a, p, b, q) || TakeLock(a, p, b, q, t) || CheckHashpower(a, p, b, q)
             || SkipMigrated(a, p, b, q) || ReleaseOne(a, p, b, q) || Invoke(a, p, b, q, c.op) || Return(a, p, b, q)
    ensures ThreadStep(a, p, b, q, t, c)
  {
    hide ReadHashpower, FetchLocks, TakeLock, CheckHashpower, SkipMigrated, ReleaseOne, Invoke, Return, InsideStep, ResizeStep;
  }

  lemma Insides(a: Shared, p: Pc, b: Shared, q: Pc, t: nat, c: Choice)
    requires || OperateInside(a, p, b, q, c.pos, c.free) || LookInside(a, p, b, q) || MoveInside(a, p, b, q)
             || SettleInside(a, p, b, q) || DropExtra(a, p, b, q, c.n) || InsertFreed(a, p, b, q, c.pos)
             || SearchOn(a, p, b, q) || SearchEnds(a, p, b, q) || SearchFails(a, p, b, q)
    ensures ThreadStep(a, p, b, q, t, c)
  {
    hide OperateInside, LookInside, MoveInside, SettleInside, DropExtra, InsertFreed, SearchOn, SearchEnds, SearchFails;
    hide TaskStep, ResizeStep;
  }

  lemma Resizes(a: Shared, p: Pc, b: Shared, q: Pc, t: nat, c: Choice)
    requires || LockNext(a, p, b, q, t) || LockNextArray(a, p, b, q) || CheckResize(a, p, b, q, c.throws)
             || FinishOne(a, p, b, q) || Drain(a, p, b, q) || AppendLocks(a, p, b, q, t) || PublishDoubled(a, p, b, q)
             || UnlockNext(a, p, b, q) || CompareWithEnd(a, p, b, q)
    ensures ThreadStep(a, p, b, q, t, c)
  {
    hide LockNext, LockNextArray, CheckResize, FinishOne, Drain, AppendLocks, PublishDoubled, UnlockNext, CompareWithEnd;
    hide TaskStep, InsideStep;
  }

  /** The choices of a step that has none to make. */
  function AnyChoice(op: Op): Choice {
    Choice(op, None, None, 0, false)
  }

  // Entering and leaving a critical section while nobody else wants its locks.

  /** b differs from a in the owners of locks only. */
  ghost predicate SameData(a: Shared, b: Shared) {
    b == a.(owners := b.owners) && |b.owners| == |a.owners|
  }

  /** The locks still to be taken are there, distinct, free and migrated, and the hashpower is the one read. */
  ghost predicate Unhindered(a: Shared, task: Task, todo: seq<nat>) {
    && |a.owners| > 0 && a.s.hp == task.hp && Distinct(todo)
    && forall y | 0 <= y < |todo| :: todo[y] < |a.owners[a.Last()]| && a.owners[a.Last()][todo[y]].None?
  }

  ghost predicate AllSkipped(a: Shared, taken: seq<nat>) {
    forall y | 0 <= y < |taken| :: taken[y] < |a.locks| && a.locks[taken[y]].isMigrated
  }

  lemma TakeOne(u: System, v: System, t: nat, task: Task, taken: seq<nat>, todo: seq<nat>) returns (w: System)
    requires Reaches(u, v) && t < |v.pcs| && todo != [] && Unhindered(v.sh, task, todo)
    requires v.pcs[t] == Acquire(task, v.sh.Last(), taken, todo)
    ensures Reaches(u, w) && (Inv(v) ==> Inv(w)) && SameData(v.sh, w.sh) && Unhindered(w.sh, task, todo[1..])
    ensures var all, rest := taken + [todo[0]], todo[1..];
            w.pcs == v.pcs[t := if taken == [] then Check(task, v.sh.Last(), all, rest)
                               else if rest != [] then Acquire(task, v.sh.Last(), all, rest)
                               else Migrate(task, v.sh.Last(), all, 0)]
  {
    hide Inv, Reaches, ThreadStep, Step;
    var a, p := v.sh, v.pcs[t];
    var gen: nat := a.Last();
    var b := a.(owners := a.owners[gen := a.owners[gen][todo[0] := Some(t)]]);
    var all, rest := taken + [todo[0]], todo[1..];
    var q := if taken == [] then Check(task, gen, all, rest)
             else if rest != [] then Acquire(task, gen, all, rest)
             else Migrate(task, gen, all, 0);
    Tasks(a, p, b, q, t, AnyChoice(task.op));
    w := Goes(u, v, t, b, q, AnyChoice(task.op));
  }

  lemma {:induction false} TakeAll(u: System, v: System, t: nat, task: Task, taken: seq<nat>, todo: seq<nat>) returns (w: System)
    requires Reaches(u, v) && t < |v.pcs| && Unhindered(v.sh, task, todo) && taken != []
    requires v.pcs[t] == if todo != [] then Acquire(task, v.sh.Last(), taken, todo) else Migrate(task, v.sh.Last(), taken, 0)
    ensures Reaches(u, w) && (Inv(v) ==> Inv(w)) && SameData(v.sh, w.sh)
    ensures w.pcs == v.pcs[t := Migrate(task, v.sh.Last(), taken + todo, 0)]
    decreases |todo|
  {
    hide Inv, Reaches, Unhindered;
    if todo == [] {
      assert taken + todo == taken;
      return v;
    }
    w := TakeOne(u, v, t, task, taken, todo);
    w := TakeAll(u, w, t, task, taken + [todo[0]], todo[1..]);
    assert taken + [todo[0]] + todo[1..] == taken + todo;
  }

  /** Fetches the current lock array, takes the first lock and finds the hashpower unchanged. */
  lemma TakeFirst(u: System, v: System, t: nat, task: Task) returns (w: System)
    requires Reaches(u, v) && t < |v.pcs| && v.pcs[t] == Fetch(task)
    requires Unhindered(v.sh, task, task.Wanted()) && task.Wanted() != []
    ensures Reaches(u, w) && (Inv(v) ==> Inv(w)) && SameData(v.sh, w.sh)
    ensures var taken, todo := [task.Wanted()[0]], task.Wanted()[1..];
            && Unhindered(w.sh, task, todo)
            && w.pcs == v.pcs[t := if todo != [] then Acquire(task, v.sh.Last(), taken, todo)
                                   else Migrate(task, v.sh.Last(), taken, 0)]
  {
    hide Inv, Reaches, ThreadStep, Step, Task.Wanted;
    var all, gen, c := task.Wanted(), v.sh.Last(), AnyChoice(task.op);
    var q := Acquire(task, gen, [], all);
    Tasks(v.sh, v.pcs[t], v.sh, q, t, c);
    w := Goes(u, v, t, v.sh, q, c);
    w := TakeOne(u, w, t, task, [], all);
    q := if all[1..] != [] then Acquire(task, gen, [all[0]], all[1..]) else Migrate(task, gen, [all[0]], 0);
    Tasks(w.sh, w.pcs[t], w.sh, q, t, c);
    w := Goes(u, w, t, w.sh, q, c);
  }

  lemma {:induction false} SkipAll(u: System, v: System, t: nat, task: Task, gen: nat, taken: seq<nat>, x: nat) returns (w: System)
    requires Reaches(u, v) && t < |v.pcs| && v.pcs[t] == Migrate(task, gen, taken, x) && x <= |taken| && AllSkipped(v.sh, taken)
    ensures Reaches(u, w) && (Inv(v) ==> Inv(w)) && w == System(v.sh, v.pcs[t := Inside(task, gen, taken)])
    decreases |taken| - x
  {
    hide Inv, Reaches, ThreadStep, Step;
    var q := if x < |taken| then Migrate(task, gen, taken, x + 1) else Inside(task, gen, taken);
    Tasks(v.sh, v.pcs[t], v.sh, q, t, AnyChoice(task.op));
    w := Goes(u, v, t, v.sh, q, AnyChoice(task.op));
    if x < |taken| {
      w := SkipAll(u, w, t, task, gen, taken, x + 1);
    }
  }

  /** The critical section of a task, reached without anybody else having to move. */
  lemma Enter(u: System, v: System, t: nat, task: Task) returns (w: System)
    requires Reaches(u, v) && t < |v.pcs| && v.pcs[t] == Fetch(task)
    requires Unhindered(v.sh, task, task.Wanted()) && task.Wanted() != [] && AllSkipped(v.sh, task.Wanted())
    ensures Reaches(u, w) && (Inv(v) ==> Inv(w)) && SameData(v.sh, w.sh)
    ensures w.pcs == v.pcs[t := Inside(task, v.sh.Last(), task.Wanted())]
  {
    hide Inv, Reaches, Unhindered, Task.Wanted;
    var all := task.Wanted();
    w := TakeFirst(u, v, t, task);
    w := TakeAll(u, w, t, task, [all[0]], all[1..]);
    assert [all[0]] + all[1..] == all;
    w := SkipAll(u, w, t, task, w.sh.Last(), all, 0);
  }

  /** Releasing the locks of a critical section. */
  lemma {:induction false} Leave(u: System, v: System, t: nat, gen: nat, taken: seq<nat>, next: Pc, c: Choice)
    returns (w: System)
    requires Reaches(u, v) && t < |v.pcs| && v.pcs[t] == Release(gen, taken, next) && Inv(v)
    ensures Reaches(u, w) && Inv(w) && SameData(v.sh, w.sh) && w.pcs == v.pcs[t := next]
    decreases |taken|
  {
    hide Inv, Reaches, ThreadStep, Step;
    ReleaseRange(v, t);
    if taken == [] {
      Tasks(v.sh, v.pcs[t], v.sh, next, t, c);
      w := Goes(u, v, t, v.sh, next, c);
    } else {
      var b := v.sh.(owners := v.sh.owners[gen := v.sh.owners[gen][taken[0] := None]]);
      Tasks(v.sh, v.pcs[t], b, Release(gen, taken[1..], next), t, c);
      w := Goes(u, v, t, b, Release(gen, taken[1..], next), c);
      w := Leave(u, w, t, gen, taken[1..], next, c);
    }
  }

  lemma ReleaseRange(v: System, t: nat)
    requires Inv(v) && t < |v.pcs| && v.pcs[t].Release?
    ensures v.pcs[t].gen < |v.sh.owners| && forall y | 0 <= y < |v.pcs[t].taken| :: v.pcs[t].taken[y] < |v.sh.owners[v.pcs[t].gen]|
  {
    hide SharedOk, OwnersMatch, BornOk, CountOk, LooseOk, Distinct;
  }
}
