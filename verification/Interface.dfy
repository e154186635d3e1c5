/**
 * The operations of the interface as operations of the machine: what each of them does to the map and answers, and that
 * this is what the table of one thread promises.
 */
module Interface {
  import opened Paths
  import opened Params
  import opened Protocol
  import opened Exclusion
  import opened Steps
  import opened Guarantees
  import Sequential = CuckooMap

  /** What a functor leaves of a value. */
  function Left(r: (Value, bool)): Option<Value> {
    if r.1 then None else Some(r.0)
  }

  function Lookup(k: Key): Op {
    Access(k, v => Some(v))
  }

  function Update(k: Key, fn: Value -> Value): Op {
    Access(k, v => Some(fn(v)))
  }

  function Erasure(k: Key): Op {
    Access(k, v => None)
  }

  /** erase_fn: the functor may assign the value and says whether the pair is to be erased. */
  function ErasureBy(k: Key, fn: Value -> (Value, bool)): Op {
    Access(k, v => Left(fn(v)))
  }

  /** Insertion of a key with a value, which leaves the value of a key that is there. */
  function Insertion(k: Key, x: Value): Op {
    Uprase(k, v => Some(v), Some(x))
  }

  function Assignment(k: Key, x: Value): Op {
    Uprase(k, v => Some(x), Some(x))
  }

  /** uprase_fn: a functor without context is not invoked on a new value. */
  function Upsertion(k: Key, x: Value, fn: Sequential.Functor): Op {
    match fn
    case Plain(f) => Uprase(k, v => Left(f(v)), Some(x))
    case WithContext(g) => Uprase(k, v => Left(g(v, Sequential.AlreadyExisted)), Left(g(x, Sequential.NewlyInserted)))
  }

  // What they do.

  lemma LookupEffect(k: Key, m: map<Key, Value>)
    ensures Effect(Lookup(k), m) == m
    ensures Answer(Lookup(k), m) == if k in m then Some(m[k]) else None
  {
  }

  lemma UpdateEffect(k: Key, fn: Value -> Value, m: map<Key, Value>)
    ensures Effect(Update(k, fn), m) == if k in m then m[k := fn(m[k])] else m
  {
  }

  lemma ErasureEffect(k: Key, m: map<Key, Value>)
    ensures Effect(Erasure(k), m) == m - {k}
    ensures Answer(Erasure(k), m).Some? <==> k in m
  {
  }

  lemma ErasureByEffect(k: Key, fn: Value -> (Value, bool), m: map<Key, Value>)
    ensures k !in m ==> Effect(ErasureBy(k, fn), m) == m
    ensures k in m ==> var (w, e) := fn(m[k]); Effect(ErasureBy(k, fn), m) == if e then m - {k} else m[k := w]
  {
  }

  lemma InsertionEffect(k: Key, x: Value, m: map<Key, Value>)
    ensures Effect(Insertion(k, x), m) == if k in m then m else m[k := x]
    ensures Answer(Insertion(k, x), m).None? <==> k !in m
  {
  }

  lemma AssignmentEffect(k: Key, x: Value, m: map<Key, Value>)
    ensures Effect(Assignment(k, x), m) == m[k := x]
    ensures Answer(Assignment(k, x), m).None? <==> k !in m
  {
  }

  /** An upsert does what the table of one thread does, functor by functor. */
  lemma UpsertionEffect(k: Key, x: Value, fn: Sequential.Functor, m: map<Key, Value>)
    ensures Effect(Upsertion(k, x, fn), m) == Sequential.Uprased(m, k, x, fn)
    ensures k !in m && fn.Plain? ==> Effect(Upsertion(k, x, fn), m) == m[k := x]
    ensures k !in m && fn.WithContext? ==>
              var (w, e) := fn.g(x, Sequential.NewlyInserted);
              Effect(Upsertion(k, x, fn), m) == if e then m - {k} else m[k := w]
    ensures k in m ==>
              var (w, e) := if fn.Plain? then fn.f(m[k]) else fn.g(m[k], Sequential.AlreadyExisted);
              Effect(Upsertion(k, x, fn), m) == if e then m - {k} else m[k := w]
    ensures Answer(Upsertion(k, x, fn), m).None? <==> k !in m
  {
    Sequential.UpraseLaws(m, k, x, fn);
  }

  /** And there are no other operations: each has the effect of an upsert or an erasure with some functor. */
  lemma NoOtherOperations(op: Op, x: Value) returns (e: Value -> (Value, bool), fn: Sequential.Functor)
    ensures forall m :: Effect(op, m) == if op.Access? then Effect(ErasureBy(op.key, e), m) else Effect(Upsertion(op.key, x, fn), m)
  {
    var kept := if op.Uprase? then op.kept else None;
    e := v => Decided(op.f(v), v);
    fn := Sequential.WithContext((v, c) => Decided(if c == Sequential.NewlyInserted then kept else op.f(v), v));
    forall m
      ensures Effect(op, m) == if op.Access? then Effect(ErasureBy(op.key, e), m) else Effect(Upsertion(op.key, x, fn), m)
    {
      LeftDecided(kept, x);
      if op.key in m {
        LeftDecided(op.f(m[op.key]), m[op.key]);
      }
    }
  }

  /** What a functor returns to leave o of the value v. */
  function Decided(o: Option<Value>, v: Value): (Value, bool) {
    if o.Some? then (o.value, false) else (v, true)
  }

  lemma LeftDecided(o: Option<Value>, v: Value)
    ensures Left(Decided(o, v)) == o
  {
  }

  // What the threads see of it.

  /** The step at which the operation op of thread t takes effect. */
  ghost predicate TakesEffect(v: System, t: nat, w: System, c: Choice, op: Op) {
    && Inv(v) && t < |v.pcs| == |w.pcs| && Step(v, t, w, c) && !Overtaken(v, t)
    && Commits(v.sh, v.pcs[t], w.sh, w.pcs[t]) && FlightOf(w.pcs[t]).op == op
  }

  lemma EffectTaken(v: System, t: nat, w: System, c: Choice, op: Op)
    requires TakesEffect(v, t, w, c, op)
    ensures t < |w.pcs| && FlightOf(w.pcs[t]).Took?
    ensures w.sh.m == Effect(op, v.sh.m) && FlightOf(w.pcs[t]).answer == Answer(op, v.sh.m)
  {
    hide Inv, Step, Overtaken, Effect, Answer, FlightOf;
    StepRefines(v, t, w, c);
  }

  /**
   * Whatever the other threads are doing, an upsert does to the map what the table of one thread promises, and its answer
   * tells whether the key was new.
   */
  lemma UpsertionServed(v: System, t: nat, w: System, c: Choice, k: Key, x: Value, fn: Sequential.Functor)
    requires TakesEffect(v, t, w, c, Upsertion(k, x, fn))
    ensures t < |w.pcs| && FlightOf(w.pcs[t]).Took? && (FlightOf(w.pcs[t]).answer.None? <==> k !in v.sh.m)
    ensures w.sh.m == Sequential.Uprased(v.sh.m, k, x, fn)
  {
    hide *;
    EffectTaken(v, t, w, c, Upsertion(k, x, fn));
    UpsertionEffect(k, x, fn, v.sh.m);
  }

  lemma InsertionServed(v: System, t: nat, w: System, c: Choice, k: Key, x: Value)
    requires TakesEffect(v, t, w, c, Insertion(k, x))
    ensures t < |w.pcs| && FlightOf(w.pcs[t]).Took? && (FlightOf(w.pcs[t]).answer.None? <==> k !in v.sh.m)
    ensures w.sh.m == if k in v.sh.m then v.sh.m else v.sh.m[k := x]
  {
    hide *;
    EffectTaken(v, t, w, c, Insertion(k, x));
    InsertionEffect(k, x, v.sh.m);
  }

  lemma ErasureServed(v: System, t: nat, w: System, c: Choice, k: Key)
    requires TakesEffect(v, t, w, c, Erasure(k))
    ensures t < |w.pcs| && FlightOf(w.pcs[t]).Took? && (FlightOf(w.pcs[t]).answer.Some? <==> k in v.sh.m)
    ensures w.sh.m == v.sh.m - {k}
  {
    hide *;
    EffectTaken(v, t, w, c, Erasure(k));
    ErasureEffect(k, v.sh.m);
  }

  lemma LookupServed(v: System, t: nat, w: System, c: Choice, k: Key)
    requires TakesEffect(v, t, w, c, Lookup(k))
    ensures t < |w.pcs| && FlightOf(w.pcs[t]).Took? && w.sh.m == v.sh.m
    ensures FlightOf(w.pcs[t]).answer == if k in v.sh.m then Some(v.sh.m[k]) else None
  {
    hide *;
    EffectTaken(v, t, w, c, Lookup(k));
    LookupEffect(k, v.sh.m);
  }
}
