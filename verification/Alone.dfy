/**
 * A thread that runs while the others rest: its search is the one of an undisturbed table, its displacements succeed at
 * the first attempt, and its insertion ends, in a free slot or in a search that has looked everywhere within reach.
 */
module Alone {
  import opened Bits
  import opened Params
  import opened Hashing
  import opened Rows
  import opened Lazy
  import opened State
  import opened Paths
  import opened Frontier
  import opened Records
  import opened PathSearch
  import opened Guards
  import opened Protocol
  import opened Exclusion
  import opened Steps
  import opened Progress
  import opened Runs

  /** A thread that holds no lock: idle, or about to compare its last lock array with the end of the list. */
  predicate Resting(pc: Pc) {
    pc.Idle? || (pc.AtEnd? && pc.gen == pc.last)
  }

  /** Thread t has the table to itself, and no migration is under way. */
  ghost predicate OnItsOwn(v: System, t: nat) {
    && Inv(v) && t < |v.pcs| && v.sh.s.AllMigrated()
    && forall u | 0 <= u < |v.pcs| && u != t :: Resting(v.pcs[u])
  }

  lemma StaysAlone(v: System, t: nat, w: System)
    requires OnItsOwn(v, t) && Inv(w) && |w.pcs| == |v.pcs| && w.pcs == v.pcs[t := w.pcs[t]] && w.sh.s.AllMigrated()
    ensures OnItsOwn(w, t)
  {
    hide Inv, Split.AllMigrated, Resting;
  }

  /** A lock that t does not hold is free. */
  lemma OthersFree(v: System, t: nat, x: nat, y: nat)
    requires OnItsOwn(v, t) && x < |v.sh.owners| && y < |v.sh.owners[x]| && !HasLock(v.pcs[t], x, y)
    ensures v.sh.owners[x][y].None?
  {
    hide Inv, SharedOk, PcOk, BornOk, CountOk, Split.AllMigrated, HasLock, OwnersMatch;
    InvFacts(v);
    if v.sh.owners[x][y].Some? {
      var u := v.sh.owners[x][y].value;
      OwnerExists(v, x, y);
      MatchOf(v, u, x, y);
      RestingHasNone(v.pcs[u], x, y);
    }
  }

  lemma OwnerExists(v: System, x: nat, y: nat)
    requires OwnersMatch(v) && x < |v.sh.owners| && y < |v.sh.owners[x]| && v.sh.owners[x][y].Some?
    ensures v.sh.owners[x][y].value < |v.pcs|
  {
    hide HasLock;
  }

  lemma RestingHasNone(pc: Pc, x: int, y: int)
    requires Resting(pc)
    ensures !HasLock(pc, x, y)
  {
  }

  lemma NotWaiting(v: System, t: nat)
    requires OnItsOwn(v, t)
    ensures !Blocked(v, t)
  {
    hide OnItsOwn, Inv, WaitsFor, HasLock;
    if Blocked(v, t) {
      var i, j := LockWaitedFor(v, t);
      assert Inv(v) by { AloneInv(v, t); }
      if v.sh.owners[i][j] == Some(t) {
        WaitsAbove(v, t, i, j, i, j);
      } else {
        InvFacts(v);
        MatchOf(v, t, i, j);
        OthersFree(v, t, i, j);
      }
    }
  }

  lemma AloneInv(v: System, t: nat)
    requires OnItsOwn(v, t)
    ensures Inv(v) && t < |v.pcs| && v.sh.s.AllMigrated()
  {
    hide Inv, Split.AllMigrated;
  }

  /** The current buckets are the whole table. */
  lemma WholeTable(v: System, t: nat)
    requires OnItsOwn(v, t)
    ensures var a := v.sh;
            && Shaped(a.s.cur, a.s.hp) && Placed(a.s.cur, a.s.hp) && Represents(a.s.cur, a.s.hp, a.m)
            && |a.s.cur| == HashSize(a.s.hp) && |a.owners| > 0 && |a.owners[a.Last()]| == |a.locks|
            && (forall l | 0 <= l < |a.locks| :: a.locks[l].isMigrated)
  {
    AloneInv(v, t);
    InvFacts(v);
    hide Inv, PcOk, OwnersMatch, BornOk, CountOk, Represents, Replay, RightAnswers, Split.Wf, Placed, Split.Effective;
    GoodCurrent(v.sh.s, v.sh.locks, v.sh.m);
    forall l | 0 <= l < |v.sh.locks|
      ensures v.sh.locks[l].isMigrated
    {
      assert v.sh.s.migrated[l];
    }
  }

  // One critical section.

  lemma NothingInTheWay(v: System, t: nat, task: Task)
    requires OnItsOwn(v, t) && v.pcs[t] == Fetch(task) && task.hp == v.sh.s.hp
    ensures Unhindered(v.sh, task, task.Wanted()) && task.Wanted() != [] && AllSkipped(v.sh, task.Wanted())
  {
    hide *;
    AloneInv(v, t);
    InvFacts(v);
    WholeTable(v, t);
    CurrentSize(v.sh, task.hp);
    LastIs(v.sh);
    var gen: nat := |v.sh.owners| - 1;
    assert PcOk(v.sh, v.pcs[t]);
    SpinsNow(v.sh, task, gen);
    WantedOk(v.sh, task, gen);
    forall y | 0 <= y < |task.Wanted()|
      ensures v.sh.owners[gen][task.Wanted()[y]].None?
    {
      FetchHasNone(v.pcs[t], gen, task.Wanted()[y]);
      OthersFree(v, t, gen, task.Wanted()[y]);
    }
    WayIsClear(v.sh, task, gen, task.Wanted());
  }

  lemma FetchHasNone(pc: Pc, x: int, y: int)
    requires pc.Fetch?
    ensures !HasLock(pc, x, y)
  {
  }

  lemma SpinsNow(a: Shared, task: Task, gen: nat)
    requires PcOk(a, Fetch(task)) && gen + 1 == |a.owners| == |a.born| && Min(MaxLocks(), Pow2(task.hp)) <= |a.owners[gen]|
    ensures Spinning(a, task, gen, task.Wanted())
  {
    hide Task.Wanted, Task.Linked;
  }

  lemma WayIsClear(a: Shared, task: Task, gen: nat, todo: seq<nat>)
    requires gen + 1 == |a.owners| && |a.owners[gen]| == |a.locks| && a.s.hp == task.hp && Increasing(todo)
    requires forall l | 0 <= l < |a.locks| :: a.locks[l].isMigrated
    requires forall y | 0 <= y < |todo| :: todo[y] < |a.owners[gen]| && a.owners[gen][todo[y]].None?
    ensures Unhindered(a, task, todo) && AllSkipped(a, todo)
  {
  }

  /** From the fetching of the locks into the critical section. */
  lemma EnterAlone(u: System, v: System, t: nat, task: Task) returns (w: System)
    requires Reaches(u, v) && OnItsOwn(v, t) && v.pcs[t] == Fetch(task) && task.hp == v.sh.s.hp
    ensures Reaches(u, w) && OnItsOwn(w, t) && SameData(v.sh, w.sh)
    ensures w.pcs == v.pcs[t := Inside(task, v.sh.Last(), task.Wanted())]
  {
    hide *;
    AloneInv(v, t);
    NothingInTheWay(v, t, task);
    w := Enter(u, v, t, task);
    SameDataMigrated(v.sh, w.sh);
    StaysAlone(v, t, w);
  }

  lemma SameDataMigrated(a: Shared, b: Shared)
    requires SameData(a, b)
    ensures b.s == a.s && b.m == a.m && b.log == a.log && b.locks == a.locks && |b.owners| == |a.owners| && b.Last() == a.Last()
  {
  }

  lemma SameDataThen(a: Shared, b: Shared, c: Shared)
    requires SameData(a, b) && SameData(b, c)
    ensures SameData(a, c)
  {
  }

  lemma LeaveAlone(u: System, v: System, t: nat, gen: nat, taken: seq<nat>, next: Pc, c: Choice) returns (w: System)
    requires Reaches(u, v) && OnItsOwn(v, t) && v.pcs[t] == Release(gen, taken, next)
    ensures Reaches(u, w) && OnItsOwn(w, t) && SameData(v.sh, w.sh) && w.pcs == v.pcs[t := next]
  {
    hide *;
    AloneInv(v, t);
    w := Leave(u, v, t, gen, taken, next, c);
    SameDataMigrated(v.sh, w.sh);
    StaysAlone(v, t, w);
  }

  /** A step of t that leaves all flags alone. */
  lemma GoesAlone(u: System, v: System, t: nat, b: Shared, q: Pc, c: Choice) returns (w: System)
    requires Reaches(u, v) && OnItsOwn(v, t) && ThreadStep(v.sh, v.pcs[t], b, q, t, c) && !v.pcs[t].AtEnd?
    requires b.s.migrated == v.sh.s.migrated
    ensures w == System(b, v.pcs[t := q]) && Reaches(u, w) && OnItsOwn(w, t)
  {
    AloneInv(v, t);
    hide OnItsOwn, Inv, ThreadStep, Reaches, Step;
    w := Goes(u, v, t, b, q, c);
    StaysAlone(v, t, w);
  }

  // The search.

  lemma LookAlone(u: System, v: System, t: nat, op: Op, hp: nat, s: Search) returns (w: System)
    requires Reaches(u, v) && OnItsOwn(v, t) && v.pcs[t] == Searching(op, hp, s) && hp == v.sh.s.hp && Looking(s)
    ensures Reaches(u, w) && OnItsOwn(w, t) && SameData(v.sh, w.sh)
    ensures LooksAt(s) < |v.sh.s.cur| && |v.sh.s.cur[LooksAt(s)]| == SLOTS
    ensures w.pcs == v.pcs[t := Searching(op, hp, Next(hp, Home(hp, op.key), Other(hp, op.key), s, v.sh.s.cur[LooksAt(s)]))]
  {
    hide OnItsOwn, Reaches, SameData, Inv, SharedOk, OwnersMatch, BornOk, CountOk, Next, Home, Other, Looking, LooksAt, Shaped;
    hide Task.Wanted, Task.Linked, SearchOk, ThreadStep, Split.AllMigrated;
    AloneInv(v, t);
    var task, c := Task(op, hp, Look(s)), AnyChoice(op);
    Insides(v.sh, v.pcs[t], v.sh, Fetch(task), t, c);
    w := GoesAlone(u, v, t, v.sh, Fetch(task), c);
    w := EnterAlone(u, w, t, task);
    SameDataMigrated(v.sh, w.sh);
    AloneInv(w, t);
    InvFacts(w);
    InsideFacts(w, t);
    LookThere(w.sh, task, s);
    var next := Searching(op, hp, Next(hp, task.First(), task.Second(), s, w.sh.s.cur[LooksAt(s)]));
    var q := Release(v.sh.Last(), task.Wanted(), next);
    assert LookInside(w.sh, w.pcs[t], w.sh, q);
    Insides(w.sh, w.pcs[t], w.sh, q, t, c);
    w := GoesAlone(u, w, t, w.sh, q, c);
    var x := w;
    w := LeaveAlone(u, w, t, v.sh.Last(), task.Wanted(), next, c);
    SameDataThen(v.sh, x.sh, w.sh);
  }

  /** The search of a thread on its own ends, with a path that can be carried out or because nothing is within reach. */
  lemma {:induction false} SearchAlone(u: System, v: System, t: nat, op: Op, hp: nat, s: Search, nodes: seq<Node>, r: Route)
    returns (w: System, s': Search, r': Route)
    requires Reaches(u, v) && OnItsOwn(v, t) && v.pcs[t] == Searching(op, hp, s) && hp == v.sh.s.hp
    requires Undistracted(v.sh.s.cur, hp, Home(hp, op.key), Other(hp, op.key), s, nodes, r)
    ensures Reaches(u, w) && OnItsOwn(w, t) && SameData(v.sh, w.sh) && w.pcs == v.pcs[t := Searching(op, hp, s')]
    ensures s'.Found? <==> !NothingFound(v.sh.s.cur, hp, Home(hp, op.key), Other(hp, op.key))
    ensures if s'.Found? then Undisturbed(s'.path, s'.depth, r', v.sh.s.cur, hp) else Exhausted(s')
    decreases Looks(s)
  {
    hide *;
    AloneInv(v, t);
    var i1, i2, cur := Home(hp, op.key), Other(hp, op.key), v.sh.s.cur;
    SearchState(v, t);
    if s.Found? {
      w, s', r' := v, s, r;
      FoundIs(cur, hp, i1, i2, s, nodes, r);
      SameDataSelf(v.sh);
    } else if Exhausted(s) {
      w, s', r' := v, s, r;
      UndistractedFails(cur, hp, i1, i2, s, nodes, r);
      ExhaustedIs(s);
      SameDataSelf(v.sh);
    } else {
      CanLook(hp, i1, i2, s);
      WholeTable(v, t);
      var x := LookAlone(u, v, t, op, hp, s);
      NextIsCloser(hp, i1, i2, s, cur[LooksAt(s)]);
      var nodes', r1 := UndistractedNext(cur, hp, i1, i2, s, nodes, r);
      SameDataMigrated(v.sh, x.sh);
      w, s', r' := SearchAlone(u, x, t, op, hp, Next(hp, i1, i2, s, cur[LooksAt(s)]), nodes', r1);
      SameDataThen(v.sh, x.sh, w.sh);
    }
  }

  lemma SameDataSelf(a: Shared)
    ensures SameData(a, a)
  {
  }

  lemma FoundIs(t: Table, hp: nat, i1: nat, i2: nat, s: Search, nodes: seq<Node>, r: Route)
    requires Undistracted(t, hp, i1, i2, s, nodes, r) && s.Found?
    ensures Undisturbed(s.path, s.depth, r, t, hp) && !NothingFound(t, hp, i1, i2)
  {
    hide Undisturbed, NothingFound;
  }

  lemma ExhaustedIs(s: Search)
    requires Exhausted(s)
    ensures s.Queued?
  {
  }

  lemma SearchState(v: System, t: nat)
    requires OnItsOwn(v, t) && v.pcs[t].Searching?
    ensures var p := v.pcs[t]; SearchOk(p.hp, Home(p.hp, p.op.key), Other(p.hp, p.op.key), p.search) && p.op.Uprase?
  {
    hide Inv, SharedOk, OwnersMatch, BornOk, CountOk, SearchOk, Home, Other, OnItsOwn, Split.AllMigrated;
    AloneInv(v, t);
    InvFacts(v);
  }

  // The displacements.

  /** What a displacement leaves alone. */
  ghost predicate SameMap(a: Shared, b: Shared) {
    b.m == a.m && b.log == a.log && b.s.hp == a.s.hp && |b.owners| == |a.owners| && |b.locks| == |a.locks|
  }

  lemma SameDataMap(a: Shared, b: Shared)
    requires SameData(a, b)
    ensures SameMap(a, b)
  {
  }

  /** Carries out the displacements of a route from its end, without a failure, until its first slot is free. */
  lemma {:induction false} DisplaceAlone(u: System, v: System, t: nat, op: Op, hp: nat, path: seq<CuckooRecord>, depth: nat,
                                         d: nat, r: Route, before: Table)
    returns (w: System)
    requires Reaches(u, v) && OnItsOwn(v, t) && v.pcs[t] == Fetch(Task(op, hp, Move(path, depth, d))) && hp == v.sh.s.hp
    requires 1 <= d && Carrying(path, depth, r, before, v.sh.s.cur, hp, d)
    ensures Reaches(u, w) && OnItsOwn(w, t) && SameMap(v.sh, w.sh)
    ensures w.pcs == v.pcs[t := w.pcs[t]] && w.pcs[t].Freed? && w.pcs[t].task.op == op
    decreases d
  {
    hide *;
    var task, c := Task(op, hp, Move(path, depth, d)), AnyChoice(op);
    AloneInv(v, t);
    var x := EnterAlone(u, v, t, task);
    SameDataMap(v.sh, x.sh);
    SameDataMigrated(v.sh, x.sh);
    WholeTable(x, t);
    CarryingStep(path, depth, r, before, x.sh.s.cur, hp, x.sh.m, d);
    CarryingLength(path, depth, r, before, x.sh.s.cur, hp, d);
    var b, q := MoveIs(x.sh, task, x.pcs[t].gen, task.Wanted());
    Insides(x.sh, x.pcs[t], b, q, t, c);
    w := GoesAlone(u, x, t, b, q, c);
    SameMapThen(v.sh, x.sh, w.sh);
    if d > 1 {
      x := w;
      w := LeaveAlone(u, x, t, q.gen, q.taken, q.next, c);
      SameDataMap(x.sh, w.sh);
      SameDataMigrated(x.sh, w.sh);
      SameMapThen(v.sh, x.sh, w.sh);
      x := w;
      w := DisplaceAlone(u, x, t, op, hp, path, depth, d - 1, r, before);
      SameMapThen(v.sh, x.sh, w.sh);
    }
  }

  lemma SameMapThen(a: Shared, b: Shared, c: Shared)
    requires SameMap(a, b) && SameMap(b, c)
    ensures SameMap(a, c) && c.s.hp == a.s.hp && c.m == a.m
  {
  }

  lemma CarryingLength(path: seq<CuckooRecord>, depth: nat, r: Route, before: Table, now: Table, hp: nat, d: nat)
    requires Carrying(path, depth, r, before, now, hp, d)
    ensures d <= depth < |path|
  {
  }

  /** The displacement whose checks pass. */
  lemma MoveIs(a: Shared, task: Task, gen: nat, taken: seq<nat>) returns (b: Shared, q: Pc)
    requires task.goal.Move? && 1 <= task.goal.d < |task.goal.path|
    requires var from, to := task.goal.path[task.goal.d - 1], task.goal.path[task.goal.d];
             && LiveAt(a.s.cur, from.bucket, from.slot) && to.bucket < |a.s.cur| && to.slot < |a.s.cur[to.bucket]|
             && MayMove(a.s.cur, from, to)
    ensures MoveInside(a, Inside(task, gen, taken), b, q) && SameMap(a, b) && b.s.migrated == a.s.migrated
    ensures var from, to, d := task.goal.path[task.goal.d - 1], task.goal.path[task.goal.d], task.goal.d;
            && b.s.cur == Displaced(a.s.cur, from.bucket, from.slot, to.bucket, to.slot)
            && q == if d == 1 then Freed(task, gen, taken, from.bucket, from.slot)
                    else Release(gen, taken, Fetch(task.(goal := Move(task.goal.path, task.goal.depth, d - 1))))
  {
    hide Displaced, MayMove;
    var path, d := task.goal.path, task.goal.d;
    var from, to := path[d - 1], path[d];
    b := a.(s := a.s.(cur := Displaced(a.s.cur, from.bucket, from.slot, to.bucket, to.slot)));
    q := if d == 1 then Freed(task, gen, taken, from.bucket, from.slot)
         else Release(gen, taken, Fetch(task.(goal := Move(path, task.goal.depth, d - 1))));
  }

  /** A path of length 0: the free slot is still there. */
  lemma SettleAlone(u: System, v: System, t: nat, op: Op, hp: nat, path: seq<CuckooRecord>, r: Route) returns (w: System)
    requires Reaches(u, v) && OnItsOwn(v, t) && v.pcs[t] == Fetch(Task(op, hp, Settle(path))) && hp == v.sh.s.hp
    requires Carrying(path, 0, r, v.sh.s.cur, v.sh.s.cur, hp, 0)
    ensures Reaches(u, w) && OnItsOwn(w, t) && SameMap(v.sh, w.sh)
    ensures w.pcs == v.pcs[t := w.pcs[t]] && w.pcs[t].Freed? && w.pcs[t].task.op == op
  {
    hide *;
    var task, c := Task(op, hp, Settle(path)), AnyChoice(op);
    AloneInv(v, t);
    var x := EnterAlone(u, v, t, task);
    SameDataMap(v.sh, x.sh);
    SameDataMigrated(v.sh, x.sh);
    CarryingEnds(path, 0, r, v.sh.s.cur, v.sh.s.cur, hp);
    var q := SettleIs(x.sh, task, x.pcs[t].gen, task.Wanted());
    Insides(x.sh, x.pcs[t], x.sh, q, t, c);
    w := GoesAlone(u, x, t, x.sh, q, c);
  }

  lemma SettleIs(a: Shared, task: Task, gen: nat, taken: seq<nat>) returns (q: Pc)
    requires task.goal.Settle? && |task.goal.path| > 0
    requires var r := task.goal.path[0]; r.bucket < |a.s.cur| && r.slot < |a.s.cur[r.bucket]| && a.s.cur[r.bucket][r.slot].Empty?
    ensures SettleInside(a, Inside(task, gen, taken), a, q) && q.Freed? && q.task == task
  {
    q := Freed(task, gen, taken, task.goal.path[0].bucket, task.goal.path[0].slot);
  }

  /** From a path that was found to a slot that is free. */
  lemma MoveAlone(u: System, v: System, t: nat, op: Op, hp: nat, s: Search, r: Route) returns (w: System)
    requires Reaches(u, v) && OnItsOwn(v, t) && v.pcs[t] == Searching(op, hp, s) && hp == v.sh.s.hp
    requires s.Found? && Undisturbed(s.path, s.depth, r, v.sh.s.cur, hp)
    ensures Reaches(u, w) && OnItsOwn(w, t) && SameMap(v.sh, w.sh)
    ensures w.pcs == v.pcs[t := w.pcs[t]] && w.pcs[t].Freed? && w.pcs[t].task.op == op
  {
    hide *;
    AloneInv(v, t);
    var c := AnyChoice(op);
    var task := Task(op, hp, if s.depth == 0 then Settle(s.path) else Move(s.path, s.depth, s.depth));
    EndsIs(v.sh, op, hp, s, task);
    Insides(v.sh, v.pcs[t], v.sh, Fetch(task), t, c);
    var x := GoesAlone(u, v, t, v.sh, Fetch(task), c);
    CarryingStarts(s.path, s.depth, r, v.sh.s.cur, hp);
    if s.depth == 0 {
      w := SettleAlone(u, x, t, op, hp, s.path, r);
    } else {
      w := DisplaceAlone(u, x, t, op, hp, s.path, s.depth, s.depth, r, v.sh.s.cur);
    }
  }

  lemma EndsIs(a: Shared, op: Op, hp: nat, s: Search, task: Task)
    requires s.Found? && task == Task(op, hp, if s.depth == 0 then Settle(s.path) else Move(s.path, s.depth, s.depth))
    ensures SearchEnds(a, Searching(op, hp, s), a, Fetch(task))
  {
  }

  // The operation.

  /** The effect of the operation is in the map, its answer was the right one, and its thread is idle again. */
  ghost predicate Finished(v: System, t: nat, op: Op, w: System) {
    && OnItsOwn(w, t) && t < |v.pcs| && w.pcs == v.pcs[t := Idle]
    && w.sh.m == Effect(op, v.sh.m) && w.sh.log == v.sh.log + [Event(op, Answer(op, v.sh.m))]
    && w.sh.s.hp == v.sh.s.hp && |w.sh.owners| == |v.sh.owners| && |w.sh.locks| == |v.sh.locks|
  }

  /** The last answer given is the one that the effects before it determine. */
  lemma LastAnswer(v: System, t: nat, log: seq<Event>, op: Op, answer: Option<Value>)
    requires OnItsOwn(v, t) && v.sh.log == log + [Event(op, answer)]
    ensures answer == Answer(op, Replay(log))
  {
    hide OnItsOwn, Inv, Answer, Replay, PcOk, OwnersMatch, Good;
    AloneInv(v, t);
    InvFacts(v);
    assert v.sh.log[|log|].answer == Answer(v.sh.log[|log|].op, Replay(v.sh.log[..|log|]));
    assert v.sh.log[..|log|] == log;
  }

  lemma MapIsReplay(v: System, t: nat)
    requires OnItsOwn(v, t)
    ensures v.sh.m == Replay(v.sh.log)
  {
    hide OnItsOwn, Inv, Answer, Replay, PcOk, OwnersMatch, Good;
    AloneInv(v, t);
    InvFacts(v);
  }

  /** From the release of the locks of a finished operation. */
  lemma ReturnAlone(u: System, v: System, x: System, t: nat, op: Op, gen: nat, taken: seq<nat>, answer: Option<Value>)
    returns (w: System)
    requires Reaches(u, x) && OnItsOwn(x, t) && x.pcs[t] == Release(gen, taken, Done(op, answer)) && x.sh.m == Effect(op, v.sh.m)
    requires t < |v.pcs| && x.pcs == v.pcs[t := x.pcs[t]] && x.sh.s.hp == v.sh.s.hp && |x.sh.owners| == |v.sh.owners|
    requires |x.sh.locks| == |v.sh.locks| && v.sh.m == Replay(v.sh.log) && x.sh.log == v.sh.log + [Event(op, answer)]
    ensures Reaches(u, w) && Finished(v, t, op, w)
  {
    hide OnItsOwn, Reaches, ThreadStep, Effect, Answer, Replay, SameData, Split.AllMigrated;
    var c := AnyChoice(op);
    LastAnswer(x, t, v.sh.log, op, answer);
    var y := LeaveAlone(u, x, t, gen, taken, Done(op, answer), c);
    SameDataMigrated(x.sh, y.sh);
    Tasks(y.sh, y.pcs[t], y.sh, Idle, t, c);
    w := GoesAlone(u, y, t, y.sh, Idle, c);
  }

  /** Filling the slot that was freed. */
  lemma {:induction false} FillAlone(u: System, v: System, x: System, t: nat, op: Op) returns (w: System)
    requires Reaches(u, x) && OnItsOwn(x, t) && x.pcs[t].Freed? && x.pcs[t].task.op == op && SameMap(v.sh, x.sh)
    requires t < |v.pcs| && x.pcs == v.pcs[t := x.pcs[t]]
    ensures Reaches(u, w) && Finished(v, t, op, w)
    decreases |x.pcs[t].taken|
  {
    hide *;
    AloneInv(x, t);
    var b, q, n, pos := CanFill(x, t);
    var c := Choice(op, pos, None, n, false);
    FillIs(x.sh, x.pcs[t], b, q, n, pos);
    Insides(x.sh, x.pcs[t], b, q, t, c);
    var y := GoesAlone(u, x, t, b, q, c);
    if q.Freed? {
      SameMapThen(v.sh, x.sh, y.sh);
      w := FillAlone(u, v, y, t, op);
    } else {
      SameMapIs(v.sh, x.sh);
      MapIsReplay(x, t);
      w := ReturnAlone(u, v, y, t, op, q.gen, q.taken, q.next.answer);
    }
  }

  lemma SameMapIs(a: Shared, b: Shared)
    requires SameMap(a, b)
    ensures b.m == a.m && b.log == a.log && b.s.hp == a.s.hp && |b.owners| == |a.owners| && |b.locks| == |a.locks|
  {
  }

  lemma FillIs(a: Shared, p: Pc, b: Shared, q: Pc, n: nat, pos: Option<(nat, nat)>)
    requires DropExtra(a, p, b, q, n) || InsertFreed(a, p, b, q, pos)
    ensures p.Freed? && b.s.migrated == a.s.migrated && b.s.hp == a.s.hp && |b.owners| == |a.owners| && |b.locks| == |a.locks|
    ensures if q.Freed? then SameMap(a, b) && q.task == p.task && |q.taken| < |p.taken|
            else && q.Release? && q.next.Done? && q.next.op == p.task.op
                 && b.m == Effect(p.task.op, a.m) && b.log == a.log + [Event(p.task.op, q.next.answer)]
  {
    hide FoundAt, LockInd, Home, Other, Effect;
  }

  /** In the critical section of the key's buckets: the operation is done, or both buckets are full. */
  lemma OperateIs(a: Shared, p: Pc, b: Shared, q: Pc, pos: Option<(nat, nat)>, free: Option<(nat, nat)>)
    requires OperateInside(a, p, b, q, pos, free)
    ensures p.Inside? && b.s.migrated == a.s.migrated && b.s.hp == a.s.hp && |b.owners| == |a.owners| && |b.locks| == |a.locks|
    ensures q.Release? && q.gen == p.gen && q.taken == p.taken
    ensures if q.next.Done? then && q.next.op == p.task.op && b.m == Effect(p.task.op, a.m)
                                 && b.log == a.log + [Event(p.task.op, q.next.answer)]
            else q.next == SearchAnew(p.task) && b == a
  {
    hide FoundAt, LockInd, Home, Other, Effect, Full;
  }

  /** From the beginning of an operation to the critical section of the key's two buckets. */
  lemma BeginAlone(u: System, v: System, t: nat, op: Op) returns (w: System, task: Task)
    requires Reaches(u, v) && OnItsOwn(v, t) && v.pcs[t] == Begin(op)
    ensures task == Task(op, v.sh.s.hp, Operate) && Reaches(u, w) && OnItsOwn(w, t) && SameData(v.sh, w.sh)
    ensures w.pcs == v.pcs[t := Inside(task, v.sh.Last(), task.Wanted())]
  {
    hide *;
    AloneInv(v, t);
    var c := AnyChoice(op);
    task := Task(op, v.sh.s.hp, Operate);
    CallsAre(v.sh, task);
    Tasks(v.sh, v.pcs[t], v.sh, Fetch(task), t, c);
    w := GoesAlone(u, v, t, v.sh, Fetch(task), c);
    w := EnterAlone(u, w, t, task);
  }

  /** The key is new and no slot can be freed for it within reach. */
  ghost predicate NoPlace(a: Shared, op: Op) {
    op.Uprase? && op.key !in a.m && NothingFound(a.s.cur, a.s.hp, Home(a.s.hp, op.key), Other(a.s.hp, op.key))
  }

  lemma CallsAre(a: Shared, task: Task)
    requires task == Task(task.op, a.s.hp, Operate)
    ensures ReadHashpower(a, Begin(task.op), a, Fetch(task))
  {
  }

  /** The search of an operation is exhausted, and nothing in the table has changed. */
  ghost predicate Stuck(v: System, t: nat, op: Op, w: System) {
    && OnItsOwn(w, t) && SameData(v.sh, w.sh) && t < |v.pcs| == |w.pcs| && w.pcs == v.pcs[t := w.pcs[t]]
    && w.pcs[t].Searching? && w.pcs[t].op == op && w.pcs[t].hp == v.sh.s.hp && Exhausted(w.pcs[t].search)
  }

  /**
   * An operation that nobody disturbs ends with its effect in the map and the right answer, unless the key is new and no
   * slot can be freed for it within reach: exactly then its search is exhausted.
   */
  lemma BeginsAlone(u: System, v: System, t: nat, op: Op) returns (w: System)
    requires Reaches(u, v) && OnItsOwn(v, t) && v.pcs[t] == Begin(op)
    ensures Reaches(u, w) && if NoPlace(v.sh, op) then Stuck(v, t, op, w) else Finished(v, t, op, w)
  {
    hide *;
    AloneInv(v, t);
    MapIsReplay(v, t);
    var x, task := BeginAlone(u, v, t, op);
    SameDataMigrated(v.sh, x.sh);
    AloneInv(x, t);
    var b, q, pos, free := CanOperate(x, t);
    var c := Choice(op, pos, free, 0, false);
    OperateIs(x.sh, x.pcs[t], b, q, pos, free);
    OperateDecides(v, x, t, task, b, q, pos, free);
    Insides(x.sh, x.pcs[t], b, q, t, c);
    var y := GoesAlone(u, x, t, b, q, c);
    if q.next.Done? {
      w := ReturnAlone(u, v, y, t, op, q.gen, q.taken, q.next.answer);
    } else {
      NoPlaceIs(v.sh, op);
      w := SearchesAlone(u, v, y, t, op, task);
    }
  }

  /** What becomes of an operation does not depend on where it was when nothing but locks had been taken and released. */
  lemma SinceThen(v: System, x: System, t: nat, op: Op, w: System)
    requires t < |v.pcs| == |x.pcs| && SameData(v.sh, x.sh) && x.pcs == v.pcs[t := x.pcs[t]]
    requires if NoPlace(x.sh, op) then Stuck(x, t, op, w) else Finished(x, t, op, w)
    ensures if NoPlace(v.sh, op) then Stuck(v, t, op, w) else Finished(v, t, op, w)
  {
    hide OnItsOwn, NothingFound, Home, Other, Exhausted, Effect, Answer;
  }

  /** So does a call. */
  lemma RunsAlone(u: System, v: System, t: nat, op: Op) returns (w: System)
    requires Reaches(u, v) && OnItsOwn(v, t) && v.pcs[t].Idle?
    ensures Reaches(u, w) && if NoPlace(v.sh, op) then Stuck(v, t, op, w) else Finished(v, t, op, w)
  {
    hide *;
    AloneInv(v, t);
    var c := AnyChoice(op);
    Tasks(v.sh, v.pcs[t], v.sh, Begin(op), t, c) by {
      CalledIs(v.sh, v.pcs[t], op);
    }
    var x := GoesAlone(u, v, t, v.sh, Begin(op), c);
    w := BeginsAlone(u, x, t, op);
    SameDataSelf(v.sh);
    SinceThen(v, x, t, op, w);
  }

  lemma CalledIs(a: Shared, p: Pc, op: Op)
    requires p.Idle?
    ensures Invoke(a, p, a, Begin(op), AnyChoice(op).op)
  {
  }

  /** The search begins exactly if the key is new and both its buckets are full. */
  lemma OperateDecides(v: System, x: System, t: nat, task: Task, b: Shared, q: Pc, pos: Option<(nat, nat)>, free: Option<(nat, nat)>)
    requires OnItsOwn(x, t) && x.pcs[t].Inside? && x.pcs[t].task == task && task.goal.Operate? && task.hp == v.sh.s.hp
    requires x.sh.s == v.sh.s && x.sh.m == v.sh.m && OperateInside(x.sh, x.pcs[t], b, q, pos, free)
    ensures q.Release? && (q.next.Done? || (task.op.Uprase? && task.op.key !in v.sh.m)) && (q.next.Done? ==> !NoPlace(v.sh, task.op))
  {
    hide OnItsOwn, Inv, SharedOk, OwnersMatch, FoundAt, LockInd, Home, Other, KeyReady, Effect, Full, NothingFound, ChangedAt;
    hide AddedAt, NothingToDo;
    AloneInv(x, t);
    InvFacts(x);
    KeyIsReady(x, t);
    KeyFlags(x.sh, t, task.op.key);
    FoundIsRight(x.sh, task.op.key, pos);
    if NoPlace(v.sh, task.op) && free.Some? {
      NothingFoundFull(v.sh.s.cur, v.sh.s.hp, task.First(), task.Second());
      NotFull(v.sh.s.cur[free.value.0], free.value.1);
    }
  }

  lemma NotFull(b: Bucket, j: nat)
    requires Full(b) && j < |b|
    ensures b[j].Live?
  {
  }

  /** The search decides: on its own, a thread fails to free a slot exactly if none can be freed within reach. */
  lemma SearchesAlone(u: System, v: System, x: System, t: nat, op: Op, task: Task) returns (w: System)
    requires Reaches(u, x) && OnItsOwn(x, t) && SameData(v.sh, x.sh) && t < |v.pcs| && x.pcs == v.pcs[t := x.pcs[t]]
    requires task.op == op && task.hp == v.sh.s.hp && op.Uprase?
    requires x.pcs[t].Release? && x.pcs[t].next == SearchAnew(task)
    ensures Reaches(u, w)
    ensures if NothingFound(v.sh.s.cur, task.hp, Home(task.hp, op.key), Other(task.hp, op.key)) then Stuck(v, t, op, w)
            else Finished(v, t, op, w)
  {
    hide *;
    var hp := task.hp;
    SameDataMigrated(v.sh, x.sh);
    var y := LeaveAlone(u, x, t, x.pcs[t].gen, x.pcs[t].taken, SearchAnew(task), AnyChoice(op));
    SameDataThen(v.sh, x.sh, y.sh);
    SameDataMigrated(v.sh, y.sh);
    WholeTable(y, t);
    CandidateBound(y.sh.s.cur, hp, op.key);
    AnewIs(task);
    var nodes, r := UndistractedStart(y.sh.s.cur, hp, Home(hp, op.key), Other(hp, op.key));
    var z, s', r' := SearchAlone(u, y, t, op, hp, Start(Home(hp, op.key), Other(hp, op.key)), nodes, r);
    SameDataThen(v.sh, y.sh, z.sh);
    SameDataMigrated(v.sh, z.sh);
    if s'.Found? {
      SameDataMap(v.sh, z.sh);
      var f := MoveAlone(u, z, t, op, hp, s', r');
      SameMapThen(v.sh, z.sh, f.sh);
      w := FillAlone(u, v, f, t, op);
    } else {
      w := z;
      StuckIs(v, t, op, w);
    }
  }

  lemma NoPlaceIs(a: Shared, op: Op)
    requires op.Uprase? && op.key !in a.m
    ensures NoPlace(a, op) <==> NothingFound(a.s.cur, a.s.hp, Home(a.s.hp, op.key), Other(a.s.hp, op.key))
  {
    hide NothingFound, Home, Other;
  }

  lemma AnewIs(task: Task)
    ensures SearchAnew(task) == Searching(task.op, task.hp, Start(Home(task.hp, task.op.key), Other(task.hp, task.op.key)))
  {
    hide Home, Other;
  }

  lemma StuckIs(v: System, t: nat, op: Op, w: System)
    requires OnItsOwn(w, t) && SameData(v.sh, w.sh) && t < |v.pcs| == |w.pcs| && w.pcs == v.pcs[t := w.pcs[t]]
    requires w.pcs[t].Searching? && w.pcs[t].op == op && w.pcs[t].hp == v.sh.s.hp && Exhausted(w.pcs[t].search)
    ensures Stuck(v, t, op, w)
  {
    hide OnItsOwn, SameData, Exhausted;
  }

  /** A displacement, or a path of length 0, that does not find the table as recorded. */
  ghost predicate Spoilt(a: Shared, p: Pc) {
    p.Inside? && match p.task.goal
      case Move(path, _, d) =>
        && 1 <= d < |path|
        && var from, to := path[d - 1], path[d];
           && from.bucket < |a.s.cur| && to.bucket < |a.s.cur|
           && from.slot < |a.s.cur[from.bucket]| && to.slot < |a.s.cur[to.bucket]| && !MayMove(a.s.cur, from, to)
      case Settle(path) =>
        && |path| > 0 && path[0].bucket < |a.s.cur| && path[0].slot < |a.s.cur[path[0].bucket]|
        && a.s.cur[path[0].bucket][path[0].slot].Live?
      case _ => false
  }

  lemma SpoiltIs(a: Shared, p: Pc) returns (q: Pc)
    requires Spoilt(a, p)
    ensures q == Release(p.gen, p.taken, SearchAnew(p.task)) && (MoveInside(a, p, a, q) || SettleInside(a, p, a, q))
  {
    hide MayMove, SearchAnew;
    q := Release(p.gen, p.taken, SearchAnew(p.task));
  }

  lemma SpoiltUprase(v: System, t: nat)
    requires Inv(v) && t < |v.pcs| && Spoilt(v.sh, v.pcs[t])
    ensures v.pcs[t].Inside? && v.pcs[t].task.op.Uprase? && v.pcs[t].task.hp == v.sh.s.hp
  {
    hide MayMove, SharedOk, OwnersMatch, BornOk, CountOk, Task.Linked, Task.Wanted, MigratedUpTo;
    assert PcOk(v.sh, v.pcs[t]);
  }

  /** A thread whose path others have spoilt searches again and, if nobody disturbs it any more, succeeds if that is possible. */
  lemma SpoiltAlone(u: System, v: System, t: nat, op: Op) returns (w: System)
    requires Reaches(u, v) && OnItsOwn(v, t) && Spoilt(v.sh, v.pcs[t]) && v.pcs[t].task.op == op
    ensures Reaches(u, w)
    ensures var hp := v.sh.s.hp;
            if NothingFound(v.sh.s.cur, hp, Home(hp, op.key), Other(hp, op.key)) then Stuck(v, t, op, w) else Finished(v, t, op, w)
  {
    hide *;
    AloneInv(v, t);
    SpoiltUprase(v, t);
    var q := SpoiltIs(v.sh, v.pcs[t]);
    Insides(v.sh, v.pcs[t], v.sh, q, t, AnyChoice(op));
    var x := GoesAlone(u, v, t, v.sh, q, AnyChoice(op));
    SameDataSelf(v.sh);
    w := SearchesAlone(u, v, x, t, op, v.pcs[t].task);
  }
}
