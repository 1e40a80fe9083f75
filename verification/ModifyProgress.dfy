// Lock-freedom of the compare-and-swap loop: failures are paid for by others' successes.

module ModifyProgress {
  import opened Common
  import opened Platforms
  import opened ModifyModel
  import opened ModifyAtomic

  function Successes<T(==)>(s: State<T>, acts: seq<Action<T>>): nat
    requires Runs(s, acts)
    decreases |acts|
  {
    if acts == [] then 0
    else (if acts[0].Store? && Succeeds(s, acts[0]) then 1 else 0) + Successes(Apply(s, acts[0]), acts[1..])
  }

  function Failures<T(==)>(s: State<T>, acts: seq<Action<T>>): nat
    requires Runs(s, acts)
    decreases |acts|
  {
    if acts == [] then 0
    else (if acts[0].Store? && !Succeeds(s, acts[0]) then 1 else 0) + Failures(Apply(s, acts[0]), acts[1..])
  }

  function IsCall<T>(): Action<T> -> bool {
    (a: Action<T>) => a.Call?
  }

  function IsStore<T>(): Action<T> -> bool {
    (a: Action<T>) => a.Store?
  }

  /** How many calls a run has. */
  function Calls<T>(acts: seq<Action<T>>): nat {
    Count(IsCall(), acts)
  }

  /** Every store of a run is a success or a failure, and the successes are the modifiers that were
      applied. */
  lemma {:induction false} EveryStoreCounts<T>(s: State<T>, acts: seq<Action<T>>)
    requires Runs(s, acts)
    ensures Successes(s, acts) + Failures(s, acts) == Count(IsStore(), acts)
    ensures Successes(s, acts) == |Applied(s, acts)|
    decreases |acts|
  {
    if acts == [] {
    } else {
      EveryStoreCounts(Apply(s, acts[0]), acts[1..]);
    }
  }

  /** The thread's cache differs from the cell, so its compare-and-swap would fail. */
  predicate Stale<T(==)>(pc: Pc<T>, data: T, counter: nat) {
    (pc.Ready? || pc.Commit?) && (pc.data != data || pc.counter != counter)
  }

  /** Steps a thread still has to take without interference, `stale` weighted per missed write. */
  function Rank<T(==)>(pc: Pc<T>, data: T, counter: nat, perCall: nat): nat {
    (match pc
     case Idle => 0
     case Load(_) => perCall + 3
     case Ready(_, _, _) => perCall + 2
     case Commit(_, _, _, _) => perCall + 1)
    + (if Stale(pc, data, counter) then 2 else 0)
  }

  ghost function StaleOf<T>(data: T, counter: nat): Pc<T> -> nat {
    pc => if Stale(pc, data, counter) then 1 else 0
  }

  ghost function RankOf<T>(data: T, counter: nat, perCall: nat): Pc<T> -> nat {
    pc => Rank(pc, data, counter, perCall)
  }

  ghost function StaleThreads<T>(s: State<T>): nat {
    SumBy(StaleOf(s.data, s.counter), s.pc)
  }

  ghost function Potential<T>(s: State<T>): nat {
    SumBy(RankOf(s.data, s.counter, PerCall(s)), s.pc)
  }

  /** What a success can cost the other n - 1 threads: two more steps each. */
  function PerCall<T>(s: State<T>): nat {
    if s.pc == [] then 0 else 2 * (|s.pc| - 1)
  }

  /** A write makes at most all other threads stale. */
  lemma WriteMakesStale<T>(pcs: seq<Pc<T>>, t: Tid, d0: T, c0: nat, d1: T, c1: nat, perCall: nat)
    requires t < |pcs| && pcs[t].Idle?
    ensures SumBy(StaleOf(d1, c1), pcs) <= SumBy(StaleOf(d0, c0), pcs) + (|pcs| - 1)
    ensures SumBy(RankOf(d1, c1, perCall), pcs) <= SumBy(RankOf(d0, c0, perCall), pcs) + 2 * (|pcs| - 1)
  {
    SumByGainBut(StaleOf(d0, c0), StaleOf(d1, c1), pcs, 1, t);
    SumByGainBut(RankOf(d0, c0, perCall), RankOf(d1, c1, perCall), pcs, 2, t);
  }

  lemma StepSums<T>(s: State<T>, a: Action<T>)
    requires Enabled(s, a) && s.platform.Dwcas?
    ensures var next := Apply(s, a);
            && |next.pc| == |s.pc| && next.platform == s.platform
            && (a.Store? && Succeeds(s, a) ==> StaleThreads(next) <= StaleThreads(s) + (|s.pc| - 1))
            && (a.Store? && !Succeeds(s, a) ==> StaleThreads(next) + 1 == StaleThreads(s))
            && (!a.Store? ==> StaleThreads(next) <= StaleThreads(s))
  {
    var next := Apply(s, a);
    SumByUpdate(StaleOf(s.data, s.counter), s.pc, a.t, next.pc[a.t]);
    if a.Store? && Succeeds(s, a) {
      WriteMakesStale(next.pc, a.t, s.data, s.counter, next.data, next.counter, PerCall(s));
    }
  }

  lemma StepPays<T>(s: State<T>, a: Action<T>)
    requires Enabled(s, a) && s.platform.Dwcas?
    ensures var next := Apply(s, a);
            && |next.pc| == |s.pc| && next.platform == s.platform
            && 1 + Potential(next) <= Potential(s) + (if a.Call? then PerCall(s) + 4 else 0)
  {
    var next, perCall := Apply(s, a), PerCall(s);
    SumByUpdate(RankOf(s.data, s.counter, perCall), s.pc, a.t, next.pc[a.t]);
    if a.Store? && Succeeds(s, a) {
      WriteMakesStale(next.pc, a.t, s.data, s.counter, next.data, next.counter, perCall);
    }
  }

  /** Over any compare-and-swap run, each failed attempt is charged to another thread's success. */
  lemma {:induction false} FailuresArePaidFor<T>(s: State<T>, acts: seq<Action<T>>, others: nat)
    requires Runs(s, acts) && s.platform.Dwcas? && |s.pc| == others + 1
    ensures Failures(s, acts) + StaleThreads(After(s, acts)) <= others * Successes(s, acts) + StaleThreads(s)
    decreases |acts|
  {
    if acts == [] {
    } else {
      var next := Apply(s, acts[0]);
      StepSums(s, acts[0]);
      FailuresArePaidFor(next, acts[1..], others);
      TimesSuccessor(others, Successes(next, acts[1..]));
    }
  }

  lemma {:induction false} RunPotential<T>(s: State<T>, acts: seq<Action<T>>, cost: nat)
    requires Runs(s, acts) && s.platform.Dwcas? && cost == PerCall(s) + 4
    ensures |acts| + Potential(After(s, acts)) <= Potential(s) + cost * Calls(acts)
    decreases |acts|
  {
    if acts == [] {
    } else {
      StepPays(s, acts[0]);
      RunPotential(Apply(s, acts[0]), acts[1..], cost);
      TimesSuccessor(cost, Calls(acts[1..]));
    }
  }

  /** Lock-freedom: with n threads and a new wrapper, at most n - 1 attempts fail for each that
      succeeds, so a run with c calls ends after at most (2n + 2)c steps. */
  lemma {:induction false} LockFreedom<T>(w: nat, init: T, n: nat, acts: seq<Action<T>>)
    requires n > 0 && Runs(Init(Dwcas(w), init, n), acts)
    ensures Failures(Init(Dwcas(w), init, n), acts) <= (n - 1) * Successes(Init(Dwcas(w), init, n), acts)
    ensures |acts| <= (2 * n + 2) * Calls(acts)
  {
    var s := Init(Dwcas(w), init, n);
    SumByZero(StaleOf(s.data, s.counter), s.pc);
    SumByZero(RankOf(s.data, s.counter, PerCall(s)), s.pc);
    FailuresArePaidFor(s, acts, n - 1);
    RunPotential(s, acts, 2 * n + 2);
  }
}
