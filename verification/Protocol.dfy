/**
 * The locking protocol as a machine of atomic steps, for any number of threads. A step touches one lock word, the list of
 * lock arrays, the hashpower, or data under locks that the thread holds.
 */
module Protocol {
  import opened Params
  import opened Hashing
  import opened Rows
  import opened Lazy
  import opened Locks
  import opened State
  import opened Paths
  import opened Records
  import opened PathSearch
  import opened Guards
  import opened Scan

  // Operations and what they should do to the map.

  /**
   * An operation on one key: what becomes of the value that is there, if any (None: it is erased), and, for an upsert,
   * what the functor leaves of the new value when the key is not there.
   */
  datatype Op =
    | Access(key: Key, f: Value -> Option<Value>)
    | Uprase(key: Key, f: Value -> Option<Value>, kept: Option<Value>)

  function Assigned(m: map<Key, Value>, k: Key, v: Option<Value>): map<Key, Value> {
    if v.Some? then m[k := v.value] else m - {k}
  }

  function Effect(op: Op, m: map<Key, Value>): map<Key, Value> {
    if op.key in m then Assigned(m, op.key, op.f(m[op.key]))
    else if op.Uprase? then Assigned(m, op.key, op.kept)
    else m
  }

  /** The value found, which also tells whether the key was there. */
  function Answer(op: Op, m: map<Key, Value>): Option<Value> {
    if op.key in m then Some(m[op.key]) else None
  }

  /** One completed effect, with the answer given. */
  datatype Event = Event(op: Op, answer: Option<Value>)

  /** The map that a sequence of effects leads to. */
  function Replay(log: seq<Event>): map<Key, Value> {
    if log == [] then map[] else Effect(log[|log| - 1].op, Replay(log[..|log| - 1]))
  }

  /** Every answer is the one that the effects before it determine. */
  ghost predicate RightAnswers(log: seq<Event>) {
    forall x | 0 <= x < |log| :: log[x].answer == Answer(log[x].op, Replay(log[..x]))
  }

  // Threads.

  /** What locks are being taken for. */
  datatype Goal =
    | Operate                                                        // the two buckets of the key
    | Look(search: Search)                                           // the next bucket that the search looks at
    | Move(path: seq<CuckooRecord>, depth: nat, d: nat)                // the displacement from stop d - 1 to stop d
    | Settle(path: seq<CuckooRecord>)                                  // a path of length 0

  datatype Task = Task(op: Op, hp: nat, goal: Goal) {
    function First(): nat {
      Home(hp, op.key)
    }

    function Second(): nat {
      Other(hp, op.key)
    }

    /** The locks to take, in order. */
    function Wanted(): seq<nat> {
      match goal
      case Operate => TakenTwo(LockInd(First()), LockInd(Second()))
      case Settle(_) => TakenTwo(LockInd(First()), LockInd(Second()))
      case Look(s) => if Looking(s) then [LockInd(LooksAt(s))] else []
      case Move(path, depth, d) =>
        if d == 0 || d >= |path| then []
        else if d == 1 then TakenThree(LockInd(First()), LockInd(Second()), LockInd(path[1].bucket))
        else TakenTwo(LockInd(path[d - 1].bucket), LockInd(path[d].bucket))
    }

    /** What a search and its path guarantee, however stale they are. */
    ghost predicate Linked() {
      match goal
      case Operate => true
      case Look(s) => Looking(s) && SearchOk(hp, First(), Second(), s)
      case Settle(path) => Records.Linked(path, 0, hp, First(), Second())
      case Move(path, depth, d) => Records.Linked(path, depth, hp, First(), Second()) && 1 <= d <= depth
    }
  }

  /**
   * Where a thread is in its program. Locks are pairs of a lock array, counted from the oldest, and an index. `last` is
   * the last array that the thread has locked; its program does not look at it.
   */
  datatype Pc =
    | Idle
    | Begin(op: Op)                                                  // about to read the hashpower
    | Fetch(task: Task)                                              // about to fetch the current lock array
    | Acquire(task: Task, gen: nat, taken: seq<nat>, todo: seq<nat>)     // spinning on the first lock of todo
    | Check(task: Task, gen: nat, taken: seq<nat>, todo: seq<nat>)       // first lock taken, about to check the hashpower
    | Migrate(task: Task, gen: nat, taken: seq<nat>, x: nat)           // rehash_lock of the x-th lock taken
    | Decrement(task: Task, gen: nat, taken: seq<nat>, x: nat)         // flag set, about to decrement the lazy counter
    | Free(task: Task, gen: nat, taken: seq<nat>, x: nat)              // counter reached 0, about to free the old buckets
    | Inside(task: Task, gen: nat, taken: seq<nat>)                    // in the critical section
    | Freed(task: Task, gen: nat, taken: seq<nat>, bucket: nat, slot: nat)  // a displacement has freed a slot
    | Release(gen: nat, taken: seq<nat>, next: Pc)
    | Searching(op: Op, hp: nat, search: Search)                       // in run_cuckoo, holding no lock
    | LockAll(op: Op, hp: nat, first: nat, gen: nat, l: nat)           // lock_all, about to take lock l of array gen
    | AllLocked(op: Op, hp: nat, first: nat)                           // lock_all is complete
    | Finish(op: Op, hp: nat, first: nat, l: nat)                      // migrating what is left, lock by lock
    | Drained(op: Op, hp: nat, first: nat)                             // old buckets freed
    | Appended(op: Op, hp: nat, first: nat)                            // enough locks, the new hashpower not yet published
    | UnlockAll(gen: nat, l: nat, last: nat, next: Pc)                 // about to release lock l of array gen
    | AtEnd(gen: nat, last: nat, next: Pc)                             // array gen released, about to compare with the end
    | Done(op: Op, answer: Option<Value>)
    | Thrown(op: Op)

  /** The shared state; `born`, `m` and `log` are only there to be reasoned about. */
  datatype Shared = Shared(
    owners: seq<seq<Option<nat>>>,   // for each lock array, who holds which lock
    born: seq<nat>,                  // for each lock array, the hashpower it was made for
    s: Split, locks: seq<Spinlock>, remaining: nat,
    m: map<Key, Value>, log: seq<Event>) {

    /** The current lock array. */
    function Last(): int {
      |owners| - 1
    }
  }

  datatype System = System(sh: Shared, pcs: seq<Pc>)

  /** Lock y of array x is held. */
  ghost predicate HasLock(pc: Pc, x: int, y: int) {
    match pc
    case Acquire(_, gen, taken, _) => x == gen && y in taken
    case Check(_, gen, taken, _) => x == gen && y in taken
    case Migrate(_, gen, taken, _) => x == gen && y in taken
    case Decrement(_, gen, taken, _) => x == gen && y in taken
    case Free(_, gen, taken, _) => x == gen && y in taken
    case Inside(_, gen, taken) => x == gen && y in taken
    case Freed(_, gen, taken, _, _) => x == gen && y in taken
    case Release(gen, taken, _) => x == gen && y in taken
    case LockAll(_, _, first, gen, l) => first <= x && (x < gen || (x == gen && y < l))
    case AllLocked(_, _, first) => first <= x
    case Finish(_, _, first, _) => first <= x
    case Drained(_, _, first) => first <= x
    case Appended(_, _, first) => first <= x
    case UnlockAll(gen, l, last, _) => (x == gen && y >= l) || gen < x <= last
    case AtEnd(gen, last, _) => gen < x <= last
    case _ => false
  }

  // The steps of one thread, as relations between the shared state and its own place before and after.

  ghost predicate SetOwner(a: Shared, b: Shared, x: int, y: int, who: Option<nat>) {
    && 0 <= x < |a.owners| && 0 <= y < |a.owners[x]|
    && b == a.(owners := a.owners[x := a.owners[x][y := who]])
  }

  /** Nothing but the data under the locks changes. */
  ghost predicate SameLocking(a: Shared, b: Shared) {
    b.owners == a.owners && b.born == a.born && b.s.hp == a.s.hp
  }

  // Taking the locks of a task.

  ghost predicate ReadHashpower(a: Shared, p: Pc, b: Shared, q: Pc) {
    p.Begin? && b == a && q == Fetch(Task(p.op, a.s.hp, Operate))
  }

  ghost predicate FetchLocks(a: Shared, p: Pc, b: Shared, q: Pc) {
    p.Fetch? && |a.owners| > 0 && b == a && q == Acquire(p.task, |a.owners| - 1, [], p.task.Wanted())
  }

  /** test_and_set succeeds on a free lock. */
  ghost predicate TakeLock(a: Shared, p: Pc, b: Shared, q: Pc, t: nat) {
    && p.Acquire? && p.todo != []
    && SetOwner(a, b, p.gen, p.todo[0], Some(t)) && a.owners[p.gen][p.todo[0]].None?
    && var taken, todo := p.taken + [p.todo[0]], p.todo[1..];
       q == if p.taken == [] then Check(p.task, p.gen, taken, todo)
            else if todo != [] then Acquire(p.task, p.gen, taken, todo)
            else Migrate(p.task, p.gen, taken, 0)
  }

  /** The hashpower is compared once the first lock is held; if it has changed, everything starts again. */
  ghost predicate CheckHashpower(a: Shared, p: Pc, b: Shared, q: Pc) {
    && p.Check? && b == a
    && q == if a.s.hp != p.task.hp then Release(p.gen, p.taken, Begin(p.task.op))
            else if p.todo != [] then Acquire(p.task, p.gen, p.taken, p.todo)
            else Migrate(p.task, p.gen, p.taken, 0)
  }

  // rehash_lock, lock by lock.

  ghost predicate SkipMigrated(a: Shared, p: Pc, b: Shared, q: Pc) {
    && p.Migrate? && b == a
    && if p.x < |p.taken| then
         && p.taken[p.x] < |a.locks| && a.locks[p.taken[p.x]].isMigrated
         && q == Migrate(p.task, p.gen, p.taken, p.x + 1)
       else q == Inside(p.task, p.gen, p.taken)
  }

  /** Moves the buckets of one lock and sets its flag; needs the old buckets. */
  ghost predicate MigrateOne(a: Shared, p: Pc, b: Shared, q: Pc) {
    && p.Migrate? && p.x < |p.taken| && p.taken[p.x] < |a.locks| && !a.locks[p.taken[p.x]].isMigrated
    && StripeMoved(a, b, p.taken[p.x])
    && q == Decrement(p.task, p.gen, p.taken, p.x)
  }

  ghost predicate StripeMoved(a: Shared, b: Shared, l: nat) {
    && a.s.Wf() && |a.locks| == |a.s.migrated| && l < |a.locks|
    && b == a.(s := a.s.Rehash(l), locks := MarkMigrated(a.locks, l))
  }

  ghost predicate DecrementRemaining(a: Shared, p: Pc, b: Shared, q: Pc) {
    && p.Decrement? && a.remaining >= 1 && b == a.(remaining := a.remaining - 1)
    && q == if a.remaining == 1 then Free(p.task, p.gen, p.taken, p.x) else Migrate(p.task, p.gen, p.taken, p.x + 1)
  }

  ghost predicate FreeOld(a: Shared, p: Pc, b: Shared, q: Pc) {
    p.Free? && b == a.(s := a.s.(past := [])) && q == Migrate(p.task, p.gen, p.taken, p.x + 1)
  }

  // Critical sections.

  /** run_cuckoo begins, or begins again after a displacement that failed. */
  function SearchAnew(task: Task): Pc {
    Searching(task.op, task.hp, Start(task.First(), task.Second()))
  }

  predicate FirstMatch(b: Bucket, j: int, partial: Partial, k: Key) {
    Matches(b, j, partial, k) && forall x | 0 <= x < j :: !Matches(b, x, partial, k)
  }

  predicate NoMatch(b: Bucket, partial: Partial, k: Key) {
    forall x | 0 <= x < |b| :: !Matches(b, x, partial, k)
  }

  /** What cuckoo_find returns: it looks at the first bucket, then at the second. */
  predicate FoundAt(t: Table, i1: nat, i2: nat, k: Key, pos: Option<(nat, nat)>) {
    && i1 < |t| && i2 < |t|
    && match pos
       case None => NoMatch(t[i1], PartialOf(k), k) && NoMatch(t[i2], PartialOf(k), k)
       case Some((i, j)) =>
         || (i == i1 && FirstMatch(t[i1], j, PartialOf(k), k))
         || (i == i2 && NoMatch(t[i1], PartialOf(k), k) && FirstMatch(t[i2], j, PartialOf(k), k))
  }

  /** The effect of an operation becomes part of the log. */
  ghost predicate Logged(a: Shared, b: Shared, op: Op, answer: Option<Value>) {
    b.log == a.log + [Event(op, answer)] && b.m == Effect(op, a.m)
  }

  /** The functor is applied to the value at (i, j), which is assigned or erased. */
  ghost predicate ChangedAt(a: Shared, b: Shared, op: Op, i: nat, j: nat) {
    && LiveAt(a.s.cur, i, j) && LockInd(i) < |a.locks|
    && Logged(a, b, op, Some(a.s.cur[i][j].value)) && SameLocking(a, b) && b.remaining == a.remaining
    && match op.f(a.s.cur[i][j].value)
       case Some(v) => b.s == a.s.(cur := Put(a.s.cur, i, j, a.s.cur[i][j].(value := v))) && b.locks == a.locks
       case None => b.s == a.s.(cur := Put(a.s.cur, i, j, Empty)) && b.locks == Count(a.locks, LockInd(i), -1)
  }

  /** A new pair is put at (i, j), unless the functor erases it at once. */
  ghost predicate AddedAt(a: Shared, b: Shared, op: Op, i: nat, j: nat) {
    && op.Uprase? && i < |a.s.cur| && j < |a.s.cur[i]| && LockInd(i) < |a.locks|
    && Logged(a, b, op, None) && SameLocking(a, b) && b.remaining == a.remaining
    && match op.kept
       case Some(v) =>
         && b.s == a.s.(cur := Put(a.s.cur, i, j, Live(PartialOf(op.key), op.key, v)))
         && b.locks == Count(a.locks, LockInd(i), 1)
       case None => b.s == a.s && b.locks == a.locks
  }

  ghost predicate NothingToDo(a: Shared, b: Shared, op: Op) {
    op.Access? && Logged(a, b, op, None) && b == a.(log := b.log, m := b.m)
  }

  /** An operation in the critical section of its two buckets. */
  ghost predicate OperateInside(a: Shared, p: Pc, b: Shared, q: Pc, pos: Option<(nat, nat)>, free: Option<(nat, nat)>) {
    && p.Inside? && p.task.goal.Operate? && FoundAt(a.s.cur, p.task.First(), p.task.Second(), p.task.op.key, pos)
    && match pos
       case Some((i, j)) =>
         ChangedAt(a, b, p.task.op, i, j) && q == Release(p.gen, p.taken, Done(p.task.op, Some(a.s.cur[i][j].value)))
       case None =>
         if p.task.op.Access? then
           NothingToDo(a, b, p.task.op) && q == Release(p.gen, p.taken, Done(p.task.op, None))
         else
           match free
           case Some((i, j)) =>
             && (i == p.task.First() || (i == p.task.Second() && Full(a.s.cur[p.task.First()])))
             && LastFree(a.s.cur[i], j)
             && AddedAt(a, b, p.task.op, i, j) && q == Release(p.gen, p.taken, Done(p.task.op, None))
           case None =>
             && Full(a.s.cur[p.task.First()]) && Full(a.s.cur[p.task.Second()])
             && b == a && q == Release(p.gen, p.taken, SearchAnew(p.task))
  }

  /** The search looks at the bucket it has locked. */
  ghost predicate LookInside(a: Shared, p: Pc, b: Shared, q: Pc) {
    && p.Inside? && p.task.goal.Look?
    && var task, s := p.task, p.task.goal.search;
    && Looking(s) && LooksAt(s) < |a.s.cur| && |a.s.cur[LooksAt(s)]| == SLOTS
    && b == a
    && var next := Next(task.hp, task.First(), task.Second(), s, a.s.cur[LooksAt(s)]);
       q == Release(p.gen, p.taken, Searching(task.op, task.hp, next))
  }

  /** A displacement, if the table is still as the path says; otherwise the search is repeated. */
  ghost predicate MoveInside(a: Shared, p: Pc, b: Shared, q: Pc) {
    && p.Inside? && p.task.goal.Move?
    && var path, d := p.task.goal.path, p.task.goal.d;
    && 1 <= d < |path|
    && var from, to := path[d - 1], path[d];
    && from.bucket < |a.s.cur| && to.bucket < |a.s.cur|
    && from.slot < |a.s.cur[from.bucket]| && to.slot < |a.s.cur[to.bucket]|
    && if MayMove(a.s.cur, from, to) then
         && b == a.(s := a.s.(cur := Displaced(a.s.cur, from.bucket, from.slot, to.bucket, to.slot)))
         && q == (if d == 1 then Freed(p.task, p.gen, p.taken, from.bucket, from.slot)
                  else Release(p.gen, p.taken, Fetch(p.task.(goal := Move(path, p.task.goal.depth, d - 1)))))
       else b == a && q == Release(p.gen, p.taken, SearchAnew(p.task))
  }

  ghost predicate SettleInside(a: Shared, p: Pc, b: Shared, q: Pc) {
    && p.Inside? && p.task.goal.Settle? && |p.task.goal.path| > 0
    && var r := p.task.goal.path[0];
    && r.bucket < |a.s.cur| && r.slot < |a.s.cur[r.bucket]|
    && b == a
    && q == if a.s.cur[r.bucket][r.slot].Empty? then Freed(p.task, p.gen, p.taken, r.bucket, r.slot)
            else Release(p.gen, p.taken, SearchAnew(p.task))
  }

  /** After the last displacement the lock of the third bucket is released, if it is not one of the other two. */
  ghost predicate DropExtra(a: Shared, p: Pc, b: Shared, q: Pc, x: nat) {
    && p.Freed? && x < |p.taken| && p.taken[x] != LockInd(p.task.First()) && p.taken[x] != LockInd(p.task.Second())
    && SetOwner(a, b, p.gen, p.taken[x], None)
    && q == Freed(p.task, p.gen, p.taken[..x] + p.taken[x + 1..], p.bucket, p.slot)
  }

  /** The key is looked for again; if nobody else has inserted it meanwhile, it goes to the slot that was freed. */
  ghost predicate InsertFreed(a: Shared, p: Pc, b: Shared, q: Pc, pos: Option<(nat, nat)>) {
    && p.Freed? && (forall x | 0 <= x < |p.taken| ::
                      p.taken[x] == LockInd(p.task.First()) || p.taken[x] == LockInd(p.task.Second()))
    && FoundAt(a.s.cur, p.task.First(), p.task.Second(), p.task.op.key, pos)
    && match pos
       case Some((i, j)) =>
         ChangedAt(a, b, p.task.op, i, j) && q == Release(p.gen, p.taken, Done(p.task.op, Some(a.s.cur[i][j].value)))
       case None =>
         AddedAt(a, b, p.task.op, p.bucket, p.slot) && q == Release(p.gen, p.taken, Done(p.task.op, None))
  }

  ghost predicate ReleaseOne(a: Shared, p: Pc, b: Shared, q: Pc) {
    && p.Release? && if p.taken == [] then b == a && q == p.next
                   else SetOwner(a, b, p.gen, p.taken[0], None) && q == Release(p.gen, p.taken[1..], p.next)
  }

  // The search, which holds at most one lock at a time.

  ghost predicate SearchOn(a: Shared, p: Pc, b: Shared, q: Pc) {
    p.Searching? && Looking(p.search) && b == a && q == Fetch(Task(p.op, p.hp, Look(p.search)))
  }

  ghost predicate SearchEnds(a: Shared, p: Pc, b: Shared, q: Pc) {
    && p.Searching? && p.search.Found? && b == a
    && var path, depth := p.search.path, p.search.depth;
       q == Fetch(Task(p.op, p.hp, if depth == 0 then Settle(path) else Move(path, depth, depth)))
  }

  /** The queue is exhausted: the table is to be doubled. */
  ghost predicate SearchFails(a: Shared, p: Pc, b: Shared, q: Pc) {
    && p.Searching? && Exhausted(p.search) && b == a && |a.owners| > 0
    && q == LockAll(p.op, p.hp, |a.owners| - 1, |a.owners| - 1, 0)
  }

  // Doubling.

  ghost predicate LockNext(a: Shared, p: Pc, b: Shared, q: Pc, t: nat) {
    && p.LockAll? && SetOwner(a, b, p.gen, p.l, Some(t)) && a.owners[p.gen][p.l].None?
    && q == LockAll(p.op, p.hp, p.first, p.gen, p.l + 1)
  }

  /** At the end of a lock array: to the next one, if there is one by now. */
  ghost predicate LockNextArray(a: Shared, p: Pc, b: Shared, q: Pc) {
    && p.LockAll? && p.gen < |a.owners| && p.l == |a.owners[p.gen]| && b == a
    && q == if p.gen + 1 < |a.owners| then LockAll(p.op, p.hp, p.first, p.gen + 1, 0) else AllLocked(p.op, p.hp, p.first)
  }

  /** The resize is checked: it may throw, find that somebody else has resized, or go ahead. */
  ghost predicate CheckResize(a: Shared, p: Pc, b: Shared, q: Pc, throws: bool) {
    && p.AllLocked? && b == a
    && |a.owners| > 0
    && q == if throws then UnlockAll(p.first, 0, |a.owners| - 1, Thrown(p.op))
            else if a.s.hp != p.hp then UnlockAll(p.first, 0, |a.owners| - 1, Begin(p.op))
            else Finish(p.op, p.hp, p.first, 0)
  }

  ghost predicate FinishOne(a: Shared, p: Pc, b: Shared, q: Pc) {
    && p.Finish? && p.l < |a.locks|
    && (if a.locks[p.l].isMigrated then b == a else StripeMoved(a, b, p.l))
    && q == Finish(p.op, p.hp, p.first, p.l + 1)
  }

  ghost predicate Drain(a: Shared, p: Pc, b: Shared, q: Pc) {
    && p.Finish? && p.l == |a.locks|
    && b == a.(remaining := 0, s := a.s.(past := [])) && q == Drained(p.op, p.hp, p.first)
  }

  ghost predicate AppendLocks(a: Shared, p: Pc, b: Shared, q: Pc, t: nat) {
    && p.Drained? && q == Appended(p.op, p.hp, p.first)
    && if |a.locks| < MaxLocks() && |a.locks| < HashSize(p.hp + 1) then
         var n := Min(MaxLocks(), HashSize(p.hp + 1));
         && n >= |a.locks|
         && b == a.(owners := a.owners + [seq(n, _ => Some(t))], born := a.born + [p.hp + 1],
                    s := a.s.(migrated := Flags(GrownLocks(a.locks, n))), locks := GrownLocks(a.locks, n))
       else b == a
  }

  ghost predicate PublishDoubled(a: Shared, p: Pc, b: Shared, q: Pc) {
    && p.Appended? && a.s.Wf() && |a.owners| > 0 && q == UnlockAll(p.first, 0, |a.owners| - 1, Begin(p.op))
    && b == a.(s := a.s.Published(), locks := PublishedLocks(a.s.hp, a.locks),
               remaining := if HashSize(a.s.hp) < MaxLocks() then 0 else |a.locks|)
  }

  ghost predicate UnlockNext(a: Shared, p: Pc, b: Shared, q: Pc) {
    && p.UnlockAll? && SetOwner(a, b, p.gen, p.l, None)
    && q == if p.l + 1 < |a.owners[p.gen]| then UnlockAll(p.gen, p.l + 1, p.last, p.next) else AtEnd(p.gen, p.last, p.next)
  }

  /** The list of arrays is compared with its end after an array has been released, so also after the last one. */
  ghost predicate CompareWithEnd(a: Shared, p: Pc, b: Shared, q: Pc) {
    p.AtEnd? && b == a && q == if p.gen + 1 < |a.owners| then UnlockAll(p.gen + 1, 0, p.last, p.next) else p.next
  }

  ghost predicate Invoke(a: Shared, p: Pc, b: Shared, q: Pc, op: Op) {
    p.Idle? && b == a && q == Begin(op)
  }

  ghost predicate Return(a: Shared, p: Pc, b: Shared, q: Pc) {
    (p.Done? || p.Thrown?) && b == a && q == Idle
  }

  /** What a step leaves open: which operation is called, where things are found, which lock goes first, and exceptions. */
  datatype Choice = Choice(op: Op, pos: Option<(nat, nat)>, free: Option<(nat, nat)>, n: nat, throws: bool)

  ghost predicate TaskStep(a: Shared, p: Pc, b: Shared, q: Pc, t: nat, c: Choice) {
    || ReadHashpower(a, p, b, q) || FetchLocks(a, p, b, q) || TakeLock(a, p, b, q, t) || CheckHashpower(a, p, b, q)
    || SkipMigrated(a, p, b, q) || MigrateOne(a, p, b, q) || DecrementRemaining(a, p, b, q) || FreeOld(a, p, b, q)
    || ReleaseOne(a, p, b, q) || Invoke(a, p, b, q, c.op) || Return(a, p, b, q)
  }

  ghost predicate InsideStep(a: Shared, p: Pc, b: Shared, q: Pc, t: nat, c: Choice) {
    || OperateInside(a, p, b, q, c.pos, c.free) || LookInside(a, p, b, q) || MoveInside(a, p, b, q)
    || SettleInside(a, p, b, q) || DropExtra(a, p, b, q, c.n) || InsertFreed(a, p, b, q, c.pos)
    || SearchOn(a, p, b, q) || SearchEnds(a, p, b, q) || SearchFails(a, p, b, q)
  }

  ghost predicate ResizeStep(a: Shared, p: Pc, b: Shared, q: Pc, t: nat, c: Choice) {
    || LockNext(a, p, b, q, t) || LockNextArray(a, p, b, q) || CheckResize(a, p, b, q, c.throws)
    || FinishOne(a, p, b, q) || Drain(a, p, b, q) || AppendLocks(a, p, b, q, t) || PublishDoubled(a, p, b, q)
    || UnlockNext(a, p, b, q) || CompareWithEnd(a, p, b, q)
  }

  ghost predicate ThreadStep(a: Shared, p: Pc, b: Shared, q: Pc, t: nat, c: Choice) {
    TaskStep(a, p, b, q, t, c) || InsideStep(a, p, b, q, t, c) || ResizeStep(a, p, b, q, t, c)
  }

  /** One step of thread t. */
  ghost predicate Step(v: System, t: nat, w: System, c: Choice) {
    t < |v.pcs| == |w.pcs| && w.pcs == v.pcs[t := w.pcs[t]] && ThreadStep(v.sh, v.pcs[t], w.sh, w.pcs[t], t, c)
  }

  /** A new table with the default locks, and n idle threads. */
  ghost predicate Initial(v: System) {
    && v.sh.s.cur == EmptyTable(v.sh.s.hp) && v.sh.s.past == [] && v.sh.remaining == 0
    && v.sh.locks == seq(Min(HashSize(v.sh.s.hp), MaxLocks()), _ => Spinlock(0, true)) && v.sh.s.migrated == Flags(v.sh.locks)
    && v.sh.owners == [seq(|v.sh.locks|, _ => None)] && v.sh.born == [v.sh.s.hp]
    && v.sh.m == map[] && v.sh.log == []
    && forall t | 0 <= t < |v.pcs| :: v.pcs[t] == Idle
  }
}
