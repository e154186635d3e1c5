/** No deadlock: threads take locks in one order, so some thread that is not idle can always take a step. */
module Progress {
  import opened Params
  import opened Hashing
  import opened Rows
  import opened Lazy
  import opened Locks
  import opened State
  import opened Paths
  import opened Records
  import opened PathSearch
  import opened Guards
  import opened Scan
  import opened Protocol
  import opened Exclusion
  import opened Steps

  /** The order of locks: by array, then by index. */
  predicate Below(x: int, y: int, i: int, j: int) {
    x < i || (x == i && y < j)
  }

  /** The lock that a thread is spinning on. */
  predicate WaitsFor(a: Shared, pc: Pc, i: nat, j: nat) {
    && i < |a.owners| && j < |a.owners[i]|
    && match pc
       case Acquire(_, gen, _, todo) => todo != [] && i == gen && j == todo[0]
       case LockAll(_, _, _, gen, l) => i == gen && j == l
       case _ => false
  }

  /** Every thread waits only for a lock above all those it holds. */
  lemma WaitsAbove(v: System, t: nat, i: nat, j: nat, x: nat, y: nat)
    requires Inv(v) && t < |v.pcs| && WaitsFor(v.sh, v.pcs[t], i, j)
    requires x < |v.sh.owners| && y < |v.sh.owners[x]| && v.sh.owners[x][y] == Some(t)
    ensures Below(x, y, i, j)
  {
    hide Inv, SharedOk, OwnersMatch, Task.Wanted, Task.Linked, LockInd, Checked;
    InvFacts(v);
    MatchOf(v, t, x, y);
    match v.pcs[t] {
      case Acquire(task, gen, taken, todo) =>
        WantedOk(v.sh, task, gen);
        var k :| 0 <= k < |taken| && taken[k] == y;
        var all := taken + todo;
        assert all[k] == y && all[|taken|] == todo[0];
      case _ =>
    }
  }

  ghost predicate Blocked(v: System, t: nat) {
    t < |v.pcs| && exists i: nat, j: nat :: WaitsFor(v.sh, v.pcs[t], i, j) && v.sh.owners[i][j].Some?
  }

  lemma HolderIsBusy(v: System, i: nat, j: nat)
    requires Inv(v) && i < |v.sh.owners| && j < |v.sh.owners[i]| && v.sh.owners[i][j].Some?
    ensures v.sh.owners[i][j].value < |v.pcs| && v.pcs[v.sh.owners[i][j].value] != Idle
  {
    InvFacts(v);
    hide Inv, SharedOk, PcOk;
    var u := v.sh.owners[i][j].value;
    assert HasLock(v.pcs[u], i, j);
  }

  /** Following the locks that threads wait for upwards ends at a thread that waits for none. */
  lemma {:induction false} Unblocked(v: System, i: nat, j: nat) returns (u: nat)
    requires Inv(v) && i < |v.sh.owners| && j < |v.sh.owners[i]| && v.sh.owners[i][j].Some?
    ensures u < |v.pcs| && v.pcs[u] != Idle && !Blocked(v, u)
    decreases |v.sh.owners| - i, |v.sh.owners[i]| - j
  {
    hide Inv, WaitsFor;
    HolderIsBusy(v, i, j);
    u := v.sh.owners[i][j].value;
    if Blocked(v, u) {
      var x, y := LockWaitedFor(v, u);
      WaitsAbove(v, u, x, y, i, j);
      u := Unblocked(v, x, y);
    }
  }

  lemma LockWaitedFor(v: System, t: nat) returns (i: nat, j: nat)
    requires Blocked(v, t)
    ensures t < |v.pcs| && WaitsFor(v.sh, v.pcs[t], i, j)
    ensures i < |v.sh.owners| && j < |v.sh.owners[i]| && v.sh.owners[i][j].Some?
  {
    var x: nat, y: nat :| WaitsFor(v.sh, v.pcs[t], x, y) && v.sh.owners[x][y].Some?;
    i, j := x, y;
  }

  /** If any thread is not idle, then one that is not idle is not blocked. */
  lemma NoDeadlock(v: System, t: nat) returns (u: nat)
    requires Inv(v) && t < |v.pcs| && v.pcs[t] != Idle
    ensures u < |v.pcs| && v.pcs[u] != Idle && !Blocked(v, u)
  {
    hide Inv, WaitsFor;
    u := t;
    if Blocked(v, t) {
      var x, y := LockWaitedFor(v, t);
      u := Unblocked(v, x, y);
    }
  }

  // A thread that is not blocked can take a step: no place in its program is a dead end.

  ghost function After(v: System, t: nat, b: Shared, q: Pc): System
    requires t < |v.pcs|
  {
    System(b, v.pcs[t := q])
  }

  lemma IsStep(v: System, t: nat, b: Shared, q: Pc, c: Choice)
    requires t < |v.pcs|
    requires TaskStep(v.sh, v.pcs[t], b, q, t, c) || InsideStep(v.sh, v.pcs[t], b, q, t, c) || ResizeStep(v.sh, v.pcs[t], b, q, t, c)
    ensures Step(v, t, After(v, t, b, q), c)
  {
    hide TaskStep, InsideStep, ResizeStep;
  }

  ghost function WithOwner(a: Shared, x: nat, y: nat, who: Option<nat>): Shared
    requires x < |a.owners| && y < |a.owners[x]|
  {
    a.(owners := a.owners[x := a.owners[x][y := who]])
  }

  lemma NotBlocked(v: System, t: nat, i: nat, j: nat)
    requires t < |v.pcs| && !Blocked(v, t) && WaitsFor(v.sh, v.pcs[t], i, j)
    ensures i < |v.sh.owners| && j < |v.sh.owners[i]| && v.sh.owners[i][j].None?
  {
  }

  lemma CanTakeLock(v: System, t: nat) returns (b: Shared, q: Pc)
    requires Inv(v) && t < |v.pcs| && v.pcs[t].Acquire? && !Blocked(v, t)
    ensures TakeLock(v.sh, v.pcs[t], b, q, t)
  {
    hide Inv, SharedOk, OwnersMatch, Task.Wanted, Task.Linked, LockInd, Checked;
    InvFacts(v);
    var p := v.pcs[t];
    WantedOk(v.sh, p.task, p.gen);
    assert (p.taken + p.todo)[|p.taken|] == p.todo[0];
    NotBlocked(v, t, p.gen, p.todo[0]);
    b := WithOwner(v.sh, p.gen, p.todo[0], Some(t));
    var taken, todo := p.taken + [p.todo[0]], p.todo[1..];
    q := if p.taken == [] then Check(p.task, p.gen, taken, todo)
         else if todo != [] then Acquire(p.task, p.gen, taken, todo)
         else Migrate(p.task, p.gen, taken, 0);
  }

  lemma CanMigrate(v: System, t: nat, c: Choice) returns (b: Shared, q: Pc)
    requires Inv(v) && t < |v.pcs| && (v.pcs[t].Migrate? || v.pcs[t].Decrement? || v.pcs[t].Free?)
    ensures TaskStep(v.sh, v.pcs[t], b, q, t, c)
  {
    hide Inv, SharedOk, OwnersMatch, PcOk, Split.Rehash, MarkMigrated, Split.Wf;
    var p, a := v.pcs[t], v.sh;
    InvFacts(v);
    Sizes(a);
    if p.Decrement? {
      CountNow(v, t);
      SomeUncounted(v.pcs, t);
      b := a.(remaining := a.remaining - 1);
      q := if a.remaining == 1 then Free(p.task, p.gen, p.taken, p.x) else Migrate(p.task, p.gen, p.taken, p.x + 1);
      assert DecrementRemaining(a, p, b, q);
    } else if p.Free? {
      b, q := a.(s := a.s.(past := [])), Migrate(p.task, p.gen, p.taken, p.x + 1);
      assert FreeOld(a, p, b, q);
    } else if p.x >= |p.taken| {
      b, q := a, Inside(p.task, p.gen, p.taken);
      assert SkipMigrated(a, p, b, q);
    } else {
      MigratingHas(v, t, p.x);
      if a.locks[p.taken[p.x]].isMigrated {
        b, q := a, Migrate(p.task, p.gen, p.taken, p.x + 1);
        assert SkipMigrated(a, p, b, q);
      } else {
        b := a.(s := a.s.Rehash(p.taken[p.x]), locks := MarkMigrated(a.locks, p.taken[p.x]));
        q := Decrement(p.task, p.gen, p.taken, p.x);
        assert MigrateOne(a, p, b, q);
      }
    }
    hide *;
  }

  lemma CanLeave(v: System, t: nat, c: Choice) returns (b: Shared, q: Pc)
    requires Inv(v) && t < |v.pcs| && v.pcs[t].Release?
    ensures TaskStep(v.sh, v.pcs[t], b, q, t, c)
  {
    hide Inv, SharedOk, OwnersMatch, LooseOk, Distinct;
    InvFacts(v);
    var p, a := v.pcs[t], v.sh;
    if p.taken == [] {
      b, q := a, p.next;
    } else {
      b, q := WithOwner(a, p.gen, p.taken[0], None), Release(p.gen, p.taken[1..], p.next);
    }
    assert ReleaseOne(a, p, b, q);
    hide ReleaseOne, PcOk;
  }

  lemma CanGoOn(v: System, t: nat, c: Choice) returns (b: Shared, q: Pc)
    requires Inv(v) && t < |v.pcs|
    requires v.pcs[t].Begin? || v.pcs[t].Fetch? || v.pcs[t].Check? || v.pcs[t].Done? || v.pcs[t].Thrown?
    ensures TaskStep(v.sh, v.pcs[t], b, q, t, c)
  {
    hide Inv, SharedOk, OwnersMatch, PcOk, Task.Wanted, Split.Wf;
    InvFacts(v);
    Sizes(v.sh);
    var p, a := v.pcs[t], v.sh;
    b := a;
    if p.Begin? {
      q := Fetch(Task(p.op, a.s.hp, Operate));
      assert ReadHashpower(a, p, b, q);
    } else if p.Fetch? {
      q := Acquire(p.task, |a.owners| - 1, [], p.task.Wanted());
      assert FetchLocks(a, p, b, q);
    } else if p.Check? {
      q := if a.s.hp != p.task.hp then Release(p.gen, p.taken, Begin(p.task.op))
           else if p.todo != [] then Acquire(p.task, p.gen, p.taken, p.todo)
           else Migrate(p.task, p.gen, p.taken, 0);
      assert CheckHashpower(a, p, b, q);
    } else {
      q := Idle;
      assert Return(a, p, b, q);
    }
    hide *;
  }

  // Critical sections.

  lemma {:induction false} Probe(b: Bucket, partial: Partial, k: Key, n: nat) returns (j: int)
    requires n <= |b| && forall x | 0 <= x < n :: !Matches(b, x, partial, k)
    ensures (j == -1 && NoMatch(b, partial, k)) || FirstMatch(b, j, partial, k)
    decreases |b| - n
  {
    if n == |b| {
      j := -1;
    } else if Matches(b, n, partial, k) {
      j := n;
    } else {
      j := Probe(b, partial, k, n + 1);
    }
  }

  lemma FindPosition(t: Table, i1: nat, i2: nat, k: Key) returns (pos: Option<(nat, nat)>)
    requires i1 < |t| && i2 < |t|
    ensures FoundAt(t, i1, i2, k, pos)
  {
    hide PartialOf;
    var j := Probe(t[i1], PartialOf(k), k, 0);
    if j >= 0 {
      return Some((i1, j));
    }
    j := Probe(t[i2], PartialOf(k), k, 0);
    pos := if j >= 0 then Some((i2, j)) else None;
  }

  ghost function Log1(a: Shared, op: Op, answer: Option<Value>): Shared {
    a.(log := a.log + [Event(op, answer)], m := Effect(op, a.m))
  }

  ghost function Changed(a: Shared, op: Op, i: nat, j: nat): Shared
    requires LiveAt(a.s.cur, i, j) && LockInd(i) < |a.locks|
  {
    var s := a.s.cur[i][j];
    var b := Log1(a, op, Some(s.value));
    match op.f(s.value)
    case Some(v) => b.(s := a.s.(cur := Put(a.s.cur, i, j, s.(value := v))))
    case None => b.(s := a.s.(cur := Put(a.s.cur, i, j, Empty)), locks := Count(a.locks, LockInd(i), -1))
  }

  lemma ChangedIs(a: Shared, op: Op, i: nat, j: nat)
    requires LiveAt(a.s.cur, i, j) && LockInd(i) < |a.locks|
    ensures ChangedAt(a, Changed(a, op, i, j), op, i, j)
  {
    hide Effect, LockInd, Put, Count;
  }

  ghost function Added(a: Shared, op: Op, i: nat, j: nat): Shared
    requires op.Uprase? && i < |a.s.cur| && j < |a.s.cur[i]| && LockInd(i) < |a.locks|
  {
    var b := Log1(a, op, None);
    match op.kept
    case Some(v) =>
      b.(s := a.s.(cur := Put(a.s.cur, i, j, Live(PartialOf(op.key), op.key, v))), locks := Count(a.locks, LockInd(i), 1))
    case None => b
  }

  lemma AddedIs(a: Shared, op: Op, i: nat, j: nat)
    requires op.Uprase? && i < |a.s.cur| && j < |a.s.cur[i]| && LockInd(i) < |a.locks|
    ensures AddedAt(a, Added(a, op, i, j), op, i, j)
  {
    hide Effect, LockInd, Put, Count, PartialOf;
  }

  /** What an operation finds in its critical section, and where its pair would go. */
  lemma Looked(a: Shared, t: nat, k: Key) returns (pos: Option<(nat, nat)>, free: Option<(nat, nat)>)
    requires SharedOk(a) && KeyReady(a, t, k)
    ensures var i1, i2 := Home(a.s.hp, k), Other(a.s.hp, k);
            && i1 < |a.s.cur| && i2 < |a.s.cur| && FoundAt(a.s.cur, i1, i2, k, pos)
            && (pos.Some? ==> LiveAt(a.s.cur, pos.value.0, pos.value.1) && LockInd(pos.value.0) < |a.locks|)
            && match free
               case Some((i, j)) =>
                 && (i == i1 || (i == i2 && Full(a.s.cur[i1]))) && LastFree(a.s.cur[i], j) && LockInd(i) < |a.locks|
               case None => Full(a.s.cur[i1]) && Full(a.s.cur[i2])
  {
    hide SharedOk, FoundAt, LockInd, Home, Other, Split.Wf, KeyReady, Full, LastFree;
    CurrentShape(a);
    CandidateBound(a.s.cur, a.s.hp, k) by { CurrentShaped(a); }
    var i1, i2 := Home(a.s.hp, k), Other(a.s.hp, k);
    pos := FindPosition(a.s.cur, i1, i2, k);
    KeyFlags(a, t, k);
    FoundIsRight(a, k, pos);
    free := None;
    if !Full(a.s.cur[i1]) {
      var j := FreeSlot(a.s.cur[i1]);
      free := Some((i1, j));
    } else if !Full(a.s.cur[i2]) {
      var j := FreeSlot(a.s.cur[i2]);
      free := Some((i2, j));
    }
  }

  lemma CanOperate(v: System, t: nat) returns (b: Shared, q: Pc, pos: Option<(nat, nat)>, free: Option<(nat, nat)>)
    requires Inv(v) && t < |v.pcs| && v.pcs[t].Inside? && v.pcs[t].task.goal.Operate?
    ensures OperateInside(v.sh, v.pcs[t], b, q, pos, free)
  {
    hide Inv, SharedOk, OwnersMatch, PcOk, FoundAt, ChangedAt, AddedAt, LockInd, Home, Other, KeyReady, Effect, Full;
    hide Changed, Added;
    InvFacts(v);
    KeyIsReady(v, t);
    var p, a := v.pcs[t], v.sh;
    var op := p.task.op;
    pos, free := Looked(a, t, op.key);
    if pos.Some? {
      ChangedIs(a, op, pos.value.0, pos.value.1);
      b := Changed(a, op, pos.value.0, pos.value.1);
      q := Release(p.gen, p.taken, Done(op, Some(a.s.cur[pos.value.0][pos.value.1].value)));
    } else if op.Access? {
      b, q := Log1(a, op, None), Release(p.gen, p.taken, Done(op, None));
    } else if free.Some? {
      AddedIs(a, op, free.value.0, free.value.1);
      b, q := Added(a, op, free.value.0, free.value.1), Release(p.gen, p.taken, Done(op, None));
    } else {
      b, q := a, Release(p.gen, p.taken, SearchAnew(p.task));
    }
  }

  lemma {:induction false} FreeSlot(b: Bucket) returns (j: nat)
    requires !Full(b)
    ensures LastFree(b, j)
  {
    var n := |b| - 1;
    if b[n].Empty? {
      j := n;
    } else {
      j := FreeSlot(b[..n]);
    }
  }

  lemma CurrentShaped(a: Shared)
    requires SharedOk(a)
    ensures Shaped(a.s.cur, a.s.hp)
  {
    hide Represents, Replay, RightAnswers, LockInd;
  }

  lemma KeyFlags(a: Shared, t: nat, k: Key)
    requires KeyReady(a, t, k)
    ensures LockInd(Home(a.s.hp, k)) < |a.s.migrated| && a.s.migrated[LockInd(Home(a.s.hp, k))]
    ensures LockInd(Other(a.s.hp, k)) < |a.s.migrated| && a.s.migrated[LockInd(Other(a.s.hp, k))]
  {
    hide LockInd, Home, Other;
  }

  lemma StopsThere(a: Shared, task: Task, x: nat)
    requires SharedOk(a) && task.Linked() && task.hp == a.s.hp
    requires (task.goal.Settle? && x == 0) || (task.goal.Move? && x <= task.goal.d)
    ensures x < |task.goal.path| && task.goal.path[x].bucket < |a.s.cur|
    ensures task.goal.path[x].slot < |a.s.cur[task.goal.path[x].bucket]|
  {
    hide SharedOk, Split.Wf, LockInd, AltIndex, PartialKey, Home, Other;
    CurrentShape(a);
  }

  lemma LookThere(a: Shared, task: Task, s: Search)
    requires SharedOk(a) && task.goal == Look(s) && task.Linked() && task.hp == a.s.hp
    ensures Looking(s) && LooksAt(s) < |a.s.cur| && |a.s.cur[LooksAt(s)]| == SLOTS
  {
    CurrentShape(a);
    CanLook(task.hp, task.First(), task.Second(), s);
    hide SharedOk, SearchOk, LockInd, Home, Other, Split.Wf;
  }

  lemma CanDisplace(v: System, t: nat) returns (b: Shared, q: Pc)
    requires Inv(v) && t < |v.pcs| && v.pcs[t].Inside? && !v.pcs[t].task.goal.Operate?
    ensures LookInside(v.sh, v.pcs[t], b, q) || MoveInside(v.sh, v.pcs[t], b, q) || SettleInside(v.sh, v.pcs[t], b, q)
  {
    hide Inv, SharedOk, OwnersMatch, PcOk, Task.Linked, Task.Wanted, TaskOk, MoveInside, AltIndex, PartialKey, Home, Other;
    InvFacts(v);
    InsideFacts(v, t);
    var p, a := v.pcs[t], v.sh;
    b := a;
    match p.task.goal {
      case Look(s) =>
        LookThere(a, p.task, s);
        var next := Next(p.task.hp, p.task.First(), p.task.Second(), s, a.s.cur[LooksAt(s)]);
        q := Release(p.gen, p.taken, Searching(p.task.op, p.task.hp, next));
      case Settle(path) =>
        StopsThere(a, p.task, 0);
        q := if a.s.cur[path[0].bucket][path[0].slot].Empty? then Freed(p.task, p.gen, p.taken, path[0].bucket, path[0].slot)
             else Release(p.gen, p.taken, SearchAnew(p.task));
      case Move(path, depth, d) =>
        LinkedAt(p.task);
        StopsThere(a, p.task, d - 1);
        StopsThere(a, p.task, d);
        b, q := Displacement(a, p);
    }
  }

  lemma IsDisplaceStep(a: Shared, p: Pc, b: Shared, q: Pc, t: nat, c: Choice)
    requires LookInside(a, p, b, q) || MoveInside(a, p, b, q) || SettleInside(a, p, b, q)
    ensures InsideStep(a, p, b, q, t, c)
  {
    hide LookInside, MoveInside, SettleInside;
  }

  lemma Displacement(a: Shared, p: Pc) returns (b: Shared, q: Pc)
    requires p.Inside? && p.task.goal.Move? && 1 <= p.task.goal.d < |p.task.goal.path|
    requires var from, to := p.task.goal.path[p.task.goal.d - 1], p.task.goal.path[p.task.goal.d];
             && from.bucket < |a.s.cur| && to.bucket < |a.s.cur|
             && from.slot < |a.s.cur[from.bucket]| && to.slot < |a.s.cur[to.bucket]|
    ensures MoveInside(a, p, b, q)
  {
    hide Displaced;
    var path, d := p.task.goal.path, p.task.goal.d;
    var from, to := path[d - 1], path[d];
    if MayMove(a.s.cur, from, to) {
      assert LiveAt(a.s.cur, from.bucket, from.slot);
      b := a.(s := a.s.(cur := Displaced(a.s.cur, from.bucket, from.slot, to.bucket, to.slot)));
      q := if d == 1 then Freed(p.task, p.gen, p.taken, from.bucket, from.slot)
           else Release(p.gen, p.taken, Fetch(p.task.(goal := Move(path, p.task.goal.depth, d - 1))));
    } else {
      b, q := a, Release(p.gen, p.taken, SearchAnew(p.task));
    }
  }

  lemma CanFill(v: System, t: nat) returns (b: Shared, q: Pc, x: nat, pos: Option<(nat, nat)>)
    requires Inv(v) && t < |v.pcs| && v.pcs[t].Freed?
    ensures DropExtra(v.sh, v.pcs[t], b, q, x) || InsertFreed(v.sh, v.pcs[t], b, q, pos)
  {
    hide Inv, SharedOk, OwnersMatch, PcOk, FoundAt, ChangedAt, AddedAt, LockInd, Home, Other, KeyReady, Effect, Full;
    hide Changed, Added;
    InvFacts(v);
    FreedReady(v, t);
    var p, a := v.pcs[t], v.sh;
    var op := p.task.op;
    var free;
    pos, free := Looked(a, t, op.key);
    x := 0;
    if y :| 0 <= y < |p.taken| && p.taken[y] != LockInd(p.task.First()) && p.taken[y] != LockInd(p.task.Second()) {
      x := y;
      FreedInRange(v, t, y);
      b, q := WithOwner(a, p.gen, p.taken[y], None), Freed(p.task, p.gen, p.taken[..y] + p.taken[y + 1..], p.bucket, p.slot);
    } else if pos.Some? {
      ChangedIs(a, op, pos.value.0, pos.value.1);
      b := Changed(a, op, pos.value.0, pos.value.1);
      q := Release(p.gen, p.taken, Done(op, Some(a.s.cur[pos.value.0][pos.value.1].value)));
    } else {
      SlotLock(a, p.bucket);
      AddedIs(a, op, p.bucket, p.slot);
      b, q := Added(a, op, p.bucket, p.slot), Release(p.gen, p.taken, Done(op, None));
    }
  }

  lemma FreedInRange(v: System, t: nat, x: nat)
    requires Inv(v) && t < |v.pcs| && v.pcs[t].Freed? && x < |v.pcs[t].taken|
    ensures v.pcs[t].gen < |v.sh.owners| && v.pcs[t].taken[x] < |v.sh.owners[v.pcs[t].gen]|
  {
    hide Inv, SharedOk, OwnersMatch, FreedOk;
    InvFacts(v);
    FreedFacts(v.sh, v.pcs[t].task, v.pcs[t].gen, v.pcs[t].taken, v.pcs[t].bucket, v.pcs[t].slot);
  }

  lemma SlotLock(a: Shared, i: nat)
    requires SharedOk(a) && i < |a.s.cur|
    ensures LockInd(i) < |a.locks|
  {
    hide SharedOk, Split.Wf, LockInd;
    CurrentShape(a);
  }

  lemma CanLockAll(v: System, t: nat, throws: bool) returns (b: Shared, q: Pc)
    requires Inv(v) && t < |v.pcs| && !Blocked(v, t) && (v.pcs[t].LockAll? || v.pcs[t].AllLocked?)
    ensures LockNext(v.sh, v.pcs[t], b, q, t) || LockNextArray(v.sh, v.pcs[t], b, q) || CheckResize(v.sh, v.pcs[t], b, q, throws)
  {
    hide Inv, SharedOk, OwnersMatch, Split.Wf, LooseOk, Blocked, WaitsFor, LockNext, LockNextArray, CheckResize, PcOk;
    InvFacts(v);
    Sizes(v.sh);
    if v.pcs[t].LockAll? {
      LockAllRange(v.sh, v.pcs[t]);
    }
    if v.pcs[t].LockAll? && v.pcs[t].l < |v.sh.owners[v.pcs[t].gen]| {
      LockAllWaits(v.sh, v.pcs[t]);
      NotBlocked(v, t, v.pcs[t].gen, v.pcs[t].l);
      b, q := LockNextIs(v.sh, v.pcs[t], t);
    } else {
      b := v.sh;
      q := LockedAllIs(v.sh, v.pcs[t], throws);
    }
  }

  lemma LockAllRange(a: Shared, p: Pc)
    requires PcOk(a, p) && p.LockAll?
    ensures p.gen < |a.owners| && p.l <= |a.owners[p.gen]|
  {
  }

  lemma LockAllWaits(a: Shared, p: Pc)
    requires p.LockAll? && p.gen < |a.owners| && p.l < |a.owners[p.gen]|
    ensures WaitsFor(a, p, p.gen, p.l)
  {
  }

  lemma LockNextIs(a: Shared, p: Pc, t: nat) returns (b: Shared, q: Pc)
    requires p.LockAll? && p.gen < |a.owners| && p.l < |a.owners[p.gen]| && a.owners[p.gen][p.l].None?
    ensures LockNext(a, p, b, q, t)
  {
    b, q := WithOwner(a, p.gen, p.l, Some(t)), LockAll(p.op, p.hp, p.first, p.gen, p.l + 1);
  }

  lemma LockedAllIs(a: Shared, p: Pc, throws: bool) returns (q: Pc)
    requires |a.owners| > 0 && (p.AllLocked? || (p.LockAll? && p.gen < |a.owners| && p.l == |a.owners[p.gen]|))
    ensures LockNextArray(a, p, a, q) || CheckResize(a, p, a, q, throws)
  {
    if p.AllLocked? {
      q := if throws then UnlockAll(p.first, 0, |a.owners| - 1, Thrown(p.op))
           else if a.s.hp != p.hp then UnlockAll(p.first, 0, |a.owners| - 1, Begin(p.op))
           else Finish(p.op, p.hp, p.first, 0);
    } else {
      q := if p.gen + 1 < |a.owners| then LockAll(p.op, p.hp, p.first, p.gen + 1, 0) else AllLocked(p.op, p.hp, p.first);
    }
  }

  lemma CanUnlockAll(v: System, t: nat) returns (b: Shared, q: Pc)
    requires Inv(v) && t < |v.pcs| && (v.pcs[t].UnlockAll? || v.pcs[t].AtEnd?)
    ensures UnlockNext(v.sh, v.pcs[t], b, q) || CompareWithEnd(v.sh, v.pcs[t], b, q)
  {
    hide Inv, SharedOk, OwnersMatch, PcOk, UnlockNext, CompareWithEnd;
    InvFacts(v);
    assert PcOk(v.sh, v.pcs[t]);
    b, q := UnlockIs(v.sh, v.pcs[t]);
  }

  lemma UnlockIs(a: Shared, p: Pc) returns (b: Shared, q: Pc)
    requires PcOk(a, p) && (p.UnlockAll? || p.AtEnd?)
    ensures UnlockNext(a, p, b, q) || CompareWithEnd(a, p, b, q)
  {
    hide LooseOk;
    if p.UnlockAll? {
      b := WithOwner(a, p.gen, p.l, None);
      q := if p.l + 1 < |a.owners[p.gen]| then UnlockAll(p.gen, p.l + 1, p.last, p.next) else AtEnd(p.gen, p.last, p.next);
    } else {
      b, q := a, if p.gen + 1 < |a.owners| then UnlockAll(p.gen + 1, 0, p.last, p.next) else p.next;
    }
  }

  lemma CanFinish(v: System, t: nat) returns (b: Shared, q: Pc)
    requires Inv(v) && t < |v.pcs| && v.pcs[t].Finish?
    ensures FinishOne(v.sh, v.pcs[t], b, q) || Drain(v.sh, v.pcs[t], b, q)
  {
    hide Inv, SharedOk, OwnersMatch, Split.Rehash, MarkMigrated, Split.Wf;
    InvFacts(v);
    Sizes(v.sh);
    var p, a := v.pcs[t], v.sh;
    b := a;
    if p.l == |a.locks| {
      b, q := a.(remaining := 0, s := a.s.(past := [])), Drained(p.op, p.hp, p.first);
    } else {
      if !a.locks[p.l].isMigrated {
        b := a.(s := a.s.Rehash(p.l), locks := MarkMigrated(a.locks, p.l));
      }
      q := Finish(p.op, p.hp, p.first, p.l + 1);
    }
  }

  lemma IsResizeStep(a: Shared, p: Pc, b: Shared, q: Pc, t: nat, c: Choice)
    requires || LockNext(a, p, b, q, t) || LockNextArray(a, p, b, q) || CheckResize(a, p, b, q, c.throws)
             || FinishOne(a, p, b, q) || Drain(a, p, b, q) || AppendLocks(a, p, b, q, t) || PublishDoubled(a, p, b, q)
             || UnlockNext(a, p, b, q) || CompareWithEnd(a, p, b, q)
    ensures ResizeStep(a, p, b, q, t, c)
  {
    hide LockNext, LockNextArray, CheckResize, FinishOne, Drain, AppendLocks, PublishDoubled, UnlockNext, CompareWithEnd;
  }

  lemma CanResize(v: System, t: nat, c: Choice) returns (b: Shared, q: Pc)
    requires Inv(v) && t < |v.pcs| && !Blocked(v, t)
    requires v.pcs[t].LockAll? || HasAll(v.pcs[t]) || v.pcs[t].UnlockAll? || v.pcs[t].AtEnd?
    ensures ResizeStep(v.sh, v.pcs[t], b, q, t, c)
  {
    hide Inv, LockNext, LockNextArray, CheckResize, FinishOne, Drain, AppendLocks, PublishDoubled, UnlockNext;
    hide CompareWithEnd, ResizeStep, Blocked;
    if v.pcs[t].LockAll? || v.pcs[t].AllLocked? {
      b, q := CanLockAll(v, t, c.throws);
    } else if v.pcs[t].Finish? {
      b, q := CanFinish(v, t);
    } else if v.pcs[t].UnlockAll? || v.pcs[t].AtEnd? {
      b, q := CanUnlockAll(v, t);
    } else {
      b, q := CanDouble(v, t, c);
    }
    IsResizeStep(v.sh, v.pcs[t], b, q, t, c);
  }

  lemma CanDouble(v: System, t: nat, c: Choice) returns (b: Shared, q: Pc)
    requires Inv(v) && t < |v.pcs| && (v.pcs[t].Appended? || v.pcs[t].Drained?)
    ensures AppendLocks(v.sh, v.pcs[t], b, q, t) || PublishDoubled(v.sh, v.pcs[t], b, q)
  {
    hide Inv, SharedOk, OwnersMatch, GrownLocks, Flags, Split.Published, PublishedLocks, Split.Wf, PcOk;
    InvFacts(v);
    Sizes(v.sh);
    var p, a := v.pcs[t], v.sh;
    b := a;
    if p.Drained? {
      q := Appended(p.op, p.hp, p.first);
      if |a.locks| < MaxLocks() && |a.locks| < HashSize(p.hp + 1) {
        var n := Min(MaxLocks(), HashSize(p.hp + 1));
        b := a.(owners := a.owners + [seq(n, _ => Some(t))], born := a.born + [p.hp + 1],
                s := a.s.(migrated := Flags(GrownLocks(a.locks, n))), locks := GrownLocks(a.locks, n));
      }
    } else {
      b := a.(s := a.s.Published(), locks := PublishedLocks(a.s.hp, a.locks),
              remaining := if HashSize(a.s.hp) < MaxLocks() then 0 else |a.locks|);
      q := UnlockAll(p.first, 0, |a.owners| - 1, Begin(p.op));
    }
  }

  /** A search always has another bucket to look at, a path to carry out, or nowhere to go but to a bigger table. */
  lemma CanSearch(v: System, t: nat, c: Choice) returns (b: Shared, q: Pc)
    requires Inv(v) && t < |v.pcs| && v.pcs[t].Searching?
    ensures InsideStep(v.sh, v.pcs[t], b, q, t, c)
  {
    hide Inv, SharedOk, OwnersMatch, Split.Wf, SearchOk, Looking, Home, Other;
    InvFacts(v);
    Sizes(v.sh);
    var p, a := v.pcs[t], v.sh;
    b := a;
    if Exhausted(p.search) {
      q := LockAll(p.op, p.hp, |a.owners| - 1, |a.owners| - 1, 0);
      assert SearchFails(a, p, b, q);
    } else if p.search.Found? {
      q := Fetch(Task(p.op, p.hp, if p.search.depth == 0 then Settle(p.search.path)
                                  else Move(p.search.path, p.search.depth, p.search.depth)));
      assert SearchEnds(a, p, b, q);
    } else {
      CanLook(p.hp, Home(p.hp, p.op.key), Other(p.hp, p.op.key), p.search);
      q := Fetch(Task(p.op, p.hp, Look(p.search)));
      assert SearchOn(a, p, b, q);
    }
    hide *;
  }

  /** Whatever place in its program a thread is at, if it is not waiting for a held lock it can go on. */
  lemma CanMove(v: System, t: nat, anything: Choice) returns (w: System, c: Choice)
    requires Inv(v) && t < |v.pcs| && v.pcs[t] != Idle && !Blocked(v, t)
    ensures Step(v, t, w, c)
  {
    hide Inv, Blocked, TaskStep, InsideStep, ResizeStep;
    c := anything;
    var b, q;
    match v.pcs[t] {
      case Acquire(_, _, _, _) =>
        b, q := CanTakeLock(v, t);
        IsTaskStep(v.sh, v.pcs[t], b, q, t, c);
      case Migrate(_, _, _, _) => b, q := CanMigrate(v, t, c);
      case Decrement(_, _, _, _) => b, q := CanMigrate(v, t, c);
      case Free(_, _, _, _) => b, q := CanMigrate(v, t, c);
      case Release(_, _, _) => b, q := CanLeave(v, t, c);
      case Inside(task, _, _) =>
        if task.goal.Operate? {
          var pos, free;
          b, q, pos, free := CanOperate(v, t);
          c := c.(pos := pos, free := free);
          IsOperateStep(v.sh, v.pcs[t], b, q, t, c);
        } else {
          b, q := CanDisplace(v, t);
          IsDisplaceStep(v.sh, v.pcs[t], b, q, t, c);
        }
      case Freed(_, _, _, _, _) =>
        var x, pos;
        b, q, x, pos := CanFill(v, t);
        c := c.(n := x, pos := pos);
        IsFillStep(v.sh, v.pcs[t], b, q, t, c);
      case Searching(_, _, _) => b, q := CanSearch(v, t, c);
      case Begin(_) => b, q := CanGoOn(v, t, c);
      case Fetch(_) => b, q := CanGoOn(v, t, c);
      case Check(_, _, _, _) => b, q := CanGoOn(v, t, c);
      case Done(_, _) => b, q := CanGoOn(v, t, c);
      case Thrown(_) => b, q := CanGoOn(v, t, c);
      case _ => b, q := CanResize(v, t, c);
    }
    w := After(v, t, b, q);
    IsStep(v, t, b, q, c);
  }

  lemma IsTaskStep(a: Shared, p: Pc, b: Shared, q: Pc, t: nat, c: Choice)
    requires TakeLock(a, p, b, q, t)
    ensures TaskStep(a, p, b, q, t, c)
  {
    hide TakeLock;
  }

  lemma IsOperateStep(a: Shared, p: Pc, b: Shared, q: Pc, t: nat, c: Choice)
    requires OperateInside(a, p, b, q, c.pos, c.free)
    ensures InsideStep(a, p, b, q, t, c)
  {
    hide OperateInside;
  }

  lemma IsFillStep(a: Shared, p: Pc, b: Shared, q: Pc, t: nat, c: Choice)
    requires DropExtra(a, p, b, q, c.n) || InsertFreed(a, p, b, q, c.pos)
    ensures InsideStep(a, p, b, q, t, c)
  {
    hide DropExtra, InsertFreed;
  }

  /** The system as a whole never gets stuck: if any thread is not idle, some such thread has a next step. */
  lemma SomeThreadMoves(v: System, t: nat, anything: Choice) returns (u: nat, w: System, c: Choice)
    requires Inv(v) && t < |v.pcs| && v.pcs[t] != Idle
    ensures u < |v.pcs| && v.pcs[u] != Idle && Step(v, u, w, c)
  {
    hide *;
    u := NoDeadlock(v, t);
    w, c := CanMove(v, u, anything);
  }
}
