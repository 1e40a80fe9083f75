// The slow double-word store: two plain reads, then compare-and-swap until it succeeds. With
// any number of threads storing and swapping, each store is one atomic write.

module DoubleWord {
  import opened Common
  import opened Schedules

  type Tid = nat

  datatype Pair = Pair(lo: nat, hi: nat)

  /** A store in progress; `expected` is what the registers hold. */
  datatype Pc =
    | Idle
    | ReadLow(desired: Pair)                    // about to read word 0
    | ReadHigh(desired: Pair, lo: nat)          // about to read word 1; the pair may end up torn
    | Swap(desired: Pair, expected: Pair)       // about to compare and swap

  datatype State = State(mem: Pair, pc: seq<Pc>)

  datatype Action =
    | Begin(t: Tid, desired: Pair)
    | LoadLow(t: Tid)
    | LoadHigh(t: Tid)
    | TrySwap(t: Tid)
    | Cas(t: Tid, expected: Pair, desired: Pair)    // atomic_dw_cas
    | Load(t: Tid, scratch: Pair)                   // the slow atomic_dw_load: a swap of scratch for scratch

  predicate Enabled(s: State, a: Action) {
    && a.t < |s.pc|
    && match a
       case Begin(t, _) => s.pc[t].Idle?
       case LoadLow(t) => s.pc[t].ReadLow?
       case LoadHigh(t) => s.pc[t].ReadHigh?
       case TrySwap(t) => s.pc[t].Swap?
       case Cas(t, _, _) => s.pc[t].Idle?
       case Load(t, _) => s.pc[t].Idle?
  }

  /** `lock cmpxchg16b`: the new memory, and what the expected registers hold afterwards. */
  function CompareExchange(mem: Pair, expected: Pair, desired: Pair): (Pair, Pair) {
    if mem == expected then (desired, expected) else (mem, mem)
  }

  function Apply(s: State, a: Action): State
    requires Enabled(s, a)
  {
    var pc := s.pc[a.t];
    match a
    case Begin(t, desired) => s.(pc := s.pc[t := ReadLow(desired)])
    case LoadLow(t) => s.(pc := s.pc[t := ReadHigh(pc.desired, s.mem.lo)])
    case LoadHigh(t) => s.(pc := s.pc[t := Swap(pc.desired, Pair(pc.lo, s.mem.hi))])
    case TrySwap(t) =>
      var (mem, registers) := CompareExchange(s.mem, pc.expected, pc.desired);
      State(mem, s.pc[t := if s.mem == pc.expected then Idle else Swap(pc.desired, registers)])
    case Cas(_, expected, desired) => s.(mem := CompareExchange(s.mem, expected, desired).0)
    case Load(_, scratch) => s.(mem := CompareExchange(s.mem, scratch, scratch).0)
  }

  /** The slow load returns the memory as it is, and changes nothing, whatever the scratch holds. */
  lemma LoadIsExact(s: State, a: Action)
    requires Enabled(s, a) && a.Load?
    ensures CompareExchange(s.mem, a.scratch, a.scratch).1 == s.mem && Apply(s, a) == s
  {
  }

  /** A store in progress can always go on, and a thread in none can begin one, swap and load. */
  lemma NobodyIsStuck(s: State, t: Tid, expected: Pair, desired: Pair)
    requires t < |s.pc|
    ensures s.pc[t].ReadLow? <==> Enabled(s, LoadLow(t))
    ensures s.pc[t].ReadHigh? <==> Enabled(s, LoadHigh(t))
    ensures s.pc[t].Swap? <==> Enabled(s, TrySwap(t))
    ensures s.pc[t].Idle? <==> Enabled(s, Begin(t, desired)) && Enabled(s, Cas(t, expected, desired)) && Enabled(s, Load(t, expected))
  {
  }

  predicate Runs(s: State, acts: seq<Action>)
    decreases |acts|
  {
    acts == [] || (Enabled(s, acts[0]) && Runs(Apply(s, acts[0]), acts[1..]))
  }

  function After(s: State, acts: seq<Action>): State
    requires Runs(s, acts)
    decreases |acts|
  {
    if acts == [] then s else After(Apply(s, acts[0]), acts[1..])
  }

  // ----- atomicity

  datatype Event =
    | Called(t: Tid, desired: Pair)
    | Stored(t: Tid)                      // a store takes effect, and returns
    | Swapped(t: Tid, desired: Pair)      // an atomic_dw_cas succeeded

  /** The specification: a double word, and the pair each pending store is going to write. */
  datatype Spec = Spec(mem: Pair, pending: seq<Option<Pair>>)

  function SpecStep(p: Spec, e: Event): Option<Spec> {
    if e.t >= |p.pending| then None
    else match e
         case Called(t, d) => if p.pending[t] == None then Some(p.(pending := p.pending[t := Some(d)])) else None
         case Stored(t) =>
           if p.pending[t].Some? then Some(Spec(p.pending[t].value, p.pending[t := None])) else None
         case Swapped(t, d) => if p.pending[t] == None then Some(p.(mem := d)) else None
  }

  function Replay(p: Spec, es: seq<Event>): Option<Spec>
    decreases |es|
  {
    if es == [] then Some(p)
    else match SpecStep(p, es[0])
         case None => None
         case Some(next) => Replay(next, es[1..])
  }

  function EventOf(s: State, a: Action): seq<Event>
    requires Enabled(s, a)
  {
    match a
    case Begin(t, d) => [Called(t, d)]
    case TrySwap(t) => if s.mem == s.pc[t].expected then [Stored(t)] else []
    case Cas(t, e, d) => if s.mem == e then [Swapped(t, d)] else []
    case LoadLow(_) => []
    case LoadHigh(_) => []
    case Load(_, _) => []
  }

  function Trace(s: State, acts: seq<Action>): seq<Event>
    requires Runs(s, acts)
    decreases |acts|
  {
    if acts == [] then [] else EventOf(s, acts[0]) + Trace(Apply(s, acts[0]), acts[1..])
  }

  ghost predicate Matches(s: State, p: Spec) {
    && p.mem == s.mem
    && |p.pending| == |s.pc|
    && forall t :: 0 <= t < |s.pc| ==> p.pending[t] == if s.pc[t].Idle? then None else Some(s.pc[t].desired)
  }

  /** Every run is a history of an atomic double word: each store writes exactly once, the whole
      of its pair, between its call and its return; nothing else ever appears in memory. */
  lemma {:induction false} StoreIsAtomic(s: State, p: Spec, acts: seq<Action>)
    requires Matches(s, p) && Runs(s, acts)
    ensures var last := Replay(p, Trace(s, acts));
            last.Some? && Matches(After(s, acts), last.value)
    decreases |acts|
  {
    if acts == [] {
    } else {
      var es, next := EventOf(s, acts[0]), Apply(s, acts[0]);
      if es == [] {
        assert [] + Trace(next, acts[1..]) == Trace(next, acts[1..]);
        StoreIsAtomic(next, p, acts[1..]);
      } else {
        assert (es + Trace(next, acts[1..]))[1..] == Trace(next, acts[1..]);
        StoreIsAtomic(next, SpecStep(p, es[0]).value, acts[1..]);
      }
    }
  }

  /** What the instructions used guarantee by themselves: memory holds the initial pair or a whole
      pair that some store or swap was asked to write. */
  lemma {:induction false} NeverTorn(s: State, acts: seq<Action>, asked: set<Pair>)
    requires Runs(s, acts) && s.mem in asked
    requires forall t :: 0 <= t < |s.pc| && !s.pc[t].Idle? ==> s.pc[t].desired in asked
    requires forall k :: 0 <= k < |acts| && (acts[k].Begin? || acts[k].Cas?) ==> acts[k].desired in asked
    ensures After(s, acts).mem in asked
    decreases |acts|
  {
    if acts == [] {
    } else {
      NeverTorn(Apply(s, acts[0]), acts[1..], asked);
    }
  }

  // ----- retries

  /** The next swap of thread `t` would fail, or its first read is already out of date. */
  predicate OutOfDate(s: State, t: Tid)
    requires t < |s.pc|
  {
    match s.pc[t]
    case Idle => false
    case ReadLow(_) => false
    case ReadHigh(_, lo) => lo != s.mem.lo
    case Swap(_, expected) => expected != s.mem
  }

  /** Failed swaps of thread `t`. */
  function Retries(s: State, acts: seq<Action>, t: Tid): nat
    requires Runs(s, acts)
    decreases |acts|
  {
    if acts == [] then 0
    else
      (if acts[0] == TrySwap(t) && s.pc[t].expected != s.mem then 1 else 0) + Retries(Apply(s, acts[0]), acts[1..], t)
  }

  /** Writes by other threads than `t`. */
  function OthersWrites(s: State, acts: seq<Action>, t: Tid): nat
    requires Runs(s, acts)
    decreases |acts|
  {
    if acts == [] then 0
    else
      (if acts[0].t != t && EventOf(s, acts[0]) != [] && !acts[0].Begin? then 1 else 0)
      + OthersWrites(Apply(s, acts[0]), acts[1..], t)
  }

  /** Every swap of a store fails, and is a retry, or ends it; a write by another thread is a store
      of that thread that ends, or a swap of its own that succeeds. */
  lemma {:induction false} RetriesAndWritesCounted(s: State, acts: seq<Action>, t: Tid)
    requires Runs(s, acts) && t < |s.pc|
    ensures Retries(s, acts, t) + Count((e: Event) => e == Stored(t), Trace(s, acts)) == Count((a: Action) => a == TrySwap(t), acts)
    ensures OthersWrites(s, acts, t) == Count((e: Event) => e.t != t && !e.Called?, Trace(s, acts))
    decreases |acts|
  {
    if acts == [] {
    } else {
      var es, next := EventOf(s, acts[0]), Apply(s, acts[0]);
      RetriesAndWritesCounted(next, acts[1..], t);
      if es == [] {
        assert [] + Trace(next, acts[1..]) == Trace(next, acts[1..]);
      } else {
        assert (es + Trace(next, acts[1..]))[1..] == Trace(next, acts[1..]);
      }
    }
  }

  /** Retries of a thread's stores are bounded by the intervening writes of the others. */
  lemma {:induction false} RetriesAreBounded(s: State, acts: seq<Action>, t: Tid)
    requires Runs(s, acts) && t < |s.pc|
    ensures t < |After(s, acts).pc|
    ensures Retries(s, acts, t) + (if OutOfDate(After(s, acts), t) then 1 else 0)
              <= OthersWrites(s, acts, t) + (if OutOfDate(s, t) then 1 else 0)
    decreases |acts|
  {
    if acts == [] {
    } else {
      RetriesAreBounded(Apply(s, acts[0]), acts[1..], t);
    }
  }

  // ----- the store as a program

  /** What another thread may do between two instructions of the store. */
  datatype Write = Put(desired: Pair) | Exchange(expected: Pair, desired: Pair)

  /** A write that reached memory: `mine` tells the store's own from those of other threads. */
  datatype Landed = Landed(mine: bool, pair: Pair)

  /** What writes of other threads do, where they take effect. */
  function Foreign(): Step<Pair, Write> {
    (v: Pair, w: Write) => if w.Put? || v == w.expected then Some(w.desired) else None
  }

  function Landings(ws: seq<Write>): (r: seq<Landed>)
    ensures |r| == |ws| && forall k :: 0 <= k < |r| ==> r[k] == Landed(false, ws[k].desired)
  {
    seq(|ws|, k requires 0 <= k < |ws| => Landed(false, ws[k].desired))
  }

  class Word2 {
    const atomic: array<nat>
    var landed: seq<Landed>      // every write so far, oldest first

    ghost predicate Valid()
      reads this, atomic
    {
      && atomic.Length == 2
      && (landed != [] ==> landed[|landed| - 1].pair == Value())
    }

    function Value(): Pair
      requires atomic.Length == 2
      reads atomic
    {
      Pair(atomic[0], atomic[1])
    }

    constructor (init: Pair)
      ensures Valid() && fresh(atomic) && Value() == init && landed == []
    {
      atomic := new nat[2];
      landed := [];
      new;
      atomic[0], atomic[1] := init.lo, init.hi;
    }

    /** `lock cmpxchg16b`: the registers always end up with what was in memory. */
    method DwCas(expected: Pair, desired: Pair, mine: bool) returns (exchanged: bool, registers: Pair)
      requires Valid()
      modifies this, atomic
      ensures Valid() && exchanged == (old(Value()) == expected) && registers == old(Value())
      ensures Value() == if exchanged then desired else old(Value())
      ensures (Value(), registers) == CompareExchange(old(Value()), expected, desired)
      ensures landed == old(landed) + if exchanged then [Landed(mine, desired)] else []
    {
      exchanged := atomic[0] == expected.lo && atomic[1] == expected.hi;
      registers := Pair(atomic[0], atomic[1]);
      if exchanged {
        atomic[0], atomic[1] := desired.lo, desired.hi;
        landed := landed + [Landed(mine, desired)];
      }
    }

    /** `atomic_dw_load`, slow form: a swap of whatever is in the registers for itself. */
    method DwLoad(scratch: Pair, mine: bool) returns (target: Pair)
      requires Valid()
      modifies this, atomic
      ensures Valid() && target == old(Value()) == Value()
      ensures landed == old(landed) + if target == scratch then [Landed(mine, scratch)] else []
    {
      var _, registers := DwCas(scratch, scratch, mine);
      target := registers;
    }

    /** What has landed since memory held `v` and the record was `base`: what the other threads'
        writes `tried` amount to, and nothing else. */
    ghost predicate OnlyForeign(base: seq<Landed>, v: Pair, tried: seq<Write>)
      reads this, atomic
    {
      && Valid()
      && var d := Tried(Foreign(), v, tried);
         landed == base + Landings(d.acts) && Value() == d.now
    }

    /** A batch of writes by other threads: a compare-and-swap that fails does nothing, everything
        else is done. */
    method Interfere(env: seq<Write>, ghost base: seq<Landed>, ghost v: Pair, ghost tried: seq<Write>)
      requires OnlyForeign(base, v, tried)
      modifies this, atomic
      ensures OnlyForeign(base, v, tried + env)
    {
      hide Tried, Landings, Foreign;
      ghost var d := Tried(Foreign(), v, tried);
      TriedNothing(d.now, env);
      for i := 0 to |env|
        invariant Valid()
        invariant var e := Tried(Foreign(), d.now, env[..i]);
                  landed == base + Landings(d.acts) + Landings(e.acts) && Value() == e.now
      {
        ForeignStep(d.now, env, i);
        match env[i] {
          case Put(desired) =>
            atomic[0], atomic[1] := desired.lo, desired.hi;
            landed := landed + [Landed(false, desired)];
          case Exchange(expected, desired) =>
            var exchanged, _ := DwCas(expected, desired, false);
        }
      }
      assert env[..|env|] == env;
      TriedConcat(Foreign(), v, tried, env);
      LandingsConcat(d.acts, Tried(Foreign(), d.now, env).acts);
    }

    /** The two plain reads, each followed by a batch of the others: the pair may be torn, but if
        it is not the pair in memory, some write took effect in the meantime. */
    method ReadTwice(env: seq<seq<Write>>) returns (expected: Pair, ghost tried: seq<Write>)
      requires Valid()
      modifies this, atomic
      ensures tried == Flat(FirstBatches(env, 2)) && OnlyForeign(old(landed), old(Value()), tried)
      ensures expected != Value() ==> Tried(Foreign(), old(Value()), tried).acts != []
    {
      hide Tried, Landings, Foreign, Flat;
      ghost var base, v := landed, Value();
      TriedNothing(v, []);
      assert landed == base + Landings([]);
      var lo := atomic[0];
      Interfere(Batch(env, 0), base, v, []);
      assert [] + Batch(env, 0) == Batch(env, 0);
      ChangeLeavesTrace(v, Batch(env, 0));
      expected := Pair(lo, atomic[1]);
      Interfere(Batch(env, 1), base, v, Batch(env, 0));
      MoreTried(v, Batch(env, 0), Batch(env, 1));
      tried := Batch(env, 0) + Batch(env, 1);
      NextFlat(env, 0);
      NextFlat(env, 1);
      assert tried == Flat(FirstBatches(env, 2));
    }

    /** `atomic_dw_store`, slow form, with other threads at work between any two instructions: it
        writes exactly once, last, the whole pair. Before that the other threads have done their
        batches in order, two and one more for each retry; it retries at most once for each of
        their writes that took effect. */
    method DwStore(desired: Pair, env: seq<seq<Write>>) returns (retries: nat, ghost others: seq<Write>)
      requires Valid()
      modifies this, atomic
      ensures Valid() && Value() == desired
      ensures landed == old(landed) + Landings(others) + [Landed(true, desired)]
      ensures others == Tried(Foreign(), old(Value()), Flat(FirstBatches(env, retries + 2))).acts
      ensures retries <= |others|
    {
      hide Tried, Landings, Foreign, Flat;
      ghost var base, v := landed, Value();
      var expected;
      ghost var tried;
      expected, tried := ReadTwice(env);
      var exchanged, registers := DwCas(expected, desired, true);
      retries := 0;
      while !exchanged
        invariant tried == Flat(FirstBatches(env, retries + 2))
        invariant if exchanged then Valid() && landed == base + Landings(Tried(Foreign(), v, tried).acts) + [Landed(true, desired)]
                  else OnlyForeign(base, v, tried)
        invariant Value() == if exchanged then desired else registers
        invariant retries + (if exchanged then 0 else 1) <= |Tried(Foreign(), v, tried).acts|
        decreases !exchanged, if retries + 2 < |env| then |env| - retries else 0
      {
        expected := registers;
        NextFlat(env, retries + 2);
        Interfere(Batch(env, retries + 2), base, v, tried);
        MoreTried(v, tried, Batch(env, retries + 2));
        tried := tried + Batch(env, retries + 2);
        retries := retries + 1;
        exchanged, registers := DwCas(expected, desired, true);
      }
      others := Tried(Foreign(), v, tried).acts;
    }
  }

  lemma TriedNothing(v: Pair, env: seq<Write>)
    ensures Tried(Foreign(), v, []) == Done(v, []) && Tried(Foreign(), v, env[..0]) == Done(v, [])
    ensures Landings([]) == []
  {
  }

  lemma ForeignStep(v: Pair, env: seq<Write>, i: nat)
    requires i < |env|
    ensures var d, w := Tried(Foreign(), v, env[..i]), env[i];
            var e := Tried(Foreign(), v, env[..i + 1]);
            if w.Put? || d.now == w.expected
            then e.now == w.desired && Landings(e.acts) == Landings(d.acts) + [Landed(false, w.desired)]
            else e == d
  {
    TriedOneMore(Foreign(), v, env, i);
  }

  lemma LandingsConcat(xs: seq<Write>, ys: seq<Write>)
    ensures Landings(xs + ys) == Landings(xs) + Landings(ys)
  {
  }

  /** More batches, more writes that take effect; and memory has changed only if there are more. */
  lemma MoreTried(v: Pair, tried: seq<Write>, env: seq<Write>)
    ensures var d, e := Tried(Foreign(), v, tried), Tried(Foreign(), v, tried + env);
            |e.acts| >= |d.acts| && (e.now != d.now ==> |e.acts| > |d.acts|) && (env == [] ==> e == d)
  {
    assert env == [] ==> tried + env == tried;
    TriedConcat(Foreign(), v, tried, env);
    ChangeLeavesTrace(Tried(Foreign(), v, tried).now, env);
  }

  lemma NextFlat(env: seq<seq<Write>>, n: nat)
    ensures Flat(FirstBatches(env, n + 1)) == Flat(FirstBatches(env, n)) + Batch(env, n)
    ensures Flat(FirstBatches(env, 0)) == []
  {
    assert FirstBatches(env, n + 1)[..n] == FirstBatches(env, n);
  }

  /** Memory changes only by a write that takes effect. */
  lemma {:induction false} ChangeLeavesTrace(v: Pair, env: seq<Write>)
    ensures Tried(Foreign(), v, env).now != v ==> Tried(Foreign(), v, env).acts != []
    decreases |env|
  {
    if env == [] {
    } else {
      ChangeLeavesTrace(v, env[..|env| - 1]);
    }
  }
}
