// Every run with finitely many calls is finite, with an explicit bound, and it can only
// stop with every call returned, the queue empty and the futex unlocked.

module FutexCompletion {
  import opened Common
  import opened FutexModel
  import opened FutexSafety

  /** The steps of the algorithm and of a quiet kernel: no signals, no spurious returns. */
  predicate Quiet(a: Action) {
    a.Leave? ==> a.code == ETimedOut
  }

  predicate AllQuiet(acts: seq<Action>) {
    forall k :: 0 <= k < |acts| ==> Quiet(acts[k])
  }

  function IsCall(): Action -> bool {
    (a: Action) => a.Begin?
  }

  /** How many calls a run has. */
  function Calls(acts: seq<Action>): nat {
    Count(IsCall(), acts)
  }

  // ----- the measure

  /** What a write of 0 or 1 may cost: it can send every thread round the wait loop again. */
  function WriteCost(n: nat): nat {
    3 * n + 1
  }

  /** What a holder may still cause: two writes that are not 2, and one wake. */
  function HolderCost(n: nat): nat {
    2 * WriteCost(n) + 4
  }

  /** What a caller pays for being the holder of the mutex already: its way back inside. */
  function HeldCost(held: bool): nat {
    if held then 2 else 0
  }

  /** Potential of one thread; only a thread about to wait cares whether the word is 2. */
  function Cost(pc: Pc, two: bool, n: nat): nat {
    match pc
    case Idle => 0
    case Waker => 4
    case Rel => WriteCost(n) + 4
    case Owner => HolderCost(n)
    case Asleep(_, held) => HolderCost(n) + HeldCost(held)
    case WaitCall(_, held) => HolderCost(n) + HeldCost(held) + (if two then 1 else 4)
    case Xchg(_, held) => HolderCost(n) + HeldCost(held) + 2
    case Back(_, code, held) =>
      if code != ETimedOut then HolderCost(n) + HeldCost(held) + 3 else if held then HolderCost(n) + 1 else 1
    case Cas(_, held) => HolderCost(n) + HeldCost(held) + 3
  }

  ghost function CostOf(two: bool, n: nat): Pc -> nat {
    pc => Cost(pc, two, n)
  }

  ghost function Potential(s: State): nat {
    SumBy(CostOf(s.value == LOCKED_WAITERS, |s.pc|), s.pc)
  }

  /** Moving one thread, with the word's twoness as in `two`. */
  lemma CostMoved(pcs: seq<Pc>, t: Tid, pc: Pc, two: bool, n: nat)
    requires t < |pcs|
    ensures SumBy(CostOf(two, n), pcs[t := pc]) + Cost(pcs[t], two, n) == SumBy(CostOf(two, n), pcs) + Cost(pc, two, n)
  {
    SumByUpdate(CostOf(two, n), pcs, t, pc);
  }

  /** A word that becomes 2 costs nothing; one that stops being 2 costs at most 3 a thread. */
  lemma CostSwitched(pcs: seq<Pc>, n: nat)
    ensures SumBy(CostOf(true, n), pcs) <= SumBy(CostOf(false, n), pcs)
    ensures SumBy(CostOf(false, n), pcs) <= SumBy(CostOf(true, n), pcs) + 3 * |pcs|
  {
    SumByGain(CostOf(false, n), CostOf(true, n), pcs, 0);
    SumByGain(CostOf(true, n), CostOf(false, n), pcs, 3);
  }

  /** One thread moves and the word's twoness changes from `before` to `after`. */
  lemma CostOfMove(pcs: seq<Pc>, t: Tid, pc: Pc, before: bool, after: bool)
    requires t < |pcs|
    ensures var n := |pcs|;
            SumBy(CostOf(after, n), pcs[t := pc]) + Cost(pcs[t], before || after, n)
              <= SumBy(CostOf(before, n), pcs) + Cost(pc, before || after, n) + (if before && !after then 3 * n else 0)
  {
    CostMoved(pcs, t, pc, before || after, |pcs|);
    CostSwitched(pcs, |pcs|);
    CostSwitched(pcs[t := pc], |pcs|);
  }

  lemma BeginCost(s: State, a: Action)
    requires Enabled(s, a) && a.Begin?
    ensures Potential(Apply(s, a)) <= Potential(s) + HolderCost(|s.pc|) + 3
  {
    CostMoved(s.pc, a.t, Cas(a.call, s.pc[a.t].Owner?), s.value == LOCKED_WAITERS, |s.pc|);
  }

  lemma WakeCost(s: State, a: Action)
    requires QueueMatches(s) && Enabled(s, a) && a.FutexWake?
    ensures Potential(Apply(s, a)) < Potential(s)
  {
    var two := s.value == LOCKED_WAITERS;
    CostMoved(s.pc, a.t, Idle, two, |s.pc|);
    if s.queue != [] {
      var u := s.queue[a.k];
      assert u in s.queue;
      CostMoved(s.pc[a.t := Idle], u, Back(s.pc[u].timed, Zero, s.pc[u].held), two, |s.pc|);
    }
  }

  /** The moving thread alone pays for its step, the write's damage to others included. */
  lemma MoverPays(s: State, a: Action)
    requires s.value in {UNLOCKED, LOCKED_NOWAITERS, LOCKED_WAITERS}
    requires Enabled(s, a) && Quiet(a) && !a.Begin? && !a.FutexWake?
    ensures var next, n := Apply(s, a), |s.pc|;
            var before, after := s.value == LOCKED_WAITERS, next.value == LOCKED_WAITERS;
            && |next.pc| == n && next.pc == s.pc[a.t := next.pc[a.t]]
            && Cost(next.pc[a.t], before || after, n) + (if before && !after then 3 * n else 0)
                 < Cost(s.pc[a.t], before || after, n)
  {
  }

  lemma MoveCost(s: State, a: Action)
    requires s.value in {UNLOCKED, LOCKED_NOWAITERS, LOCKED_WAITERS}
    requires Enabled(s, a) && Quiet(a) && !a.Begin? && !a.FutexWake?
    ensures Potential(Apply(s, a)) < Potential(s)
  {
    var next := Apply(s, a);
    MoverPays(s, a);
    CostOfMove(s.pc, a.t, next.pc[a.t], s.value == LOCKED_WAITERS, next.value == LOCKED_WAITERS);
  }

  /** Every quiet step but a new call uses up potential. */
  lemma StepCost(s: State, a: Action)
    requires s.value in {UNLOCKED, LOCKED_NOWAITERS, LOCKED_WAITERS}
    requires QueueMatches(s) && Enabled(s, a) && Quiet(a) && !a.Begin?
    ensures Potential(Apply(s, a)) < Potential(s)
  {
    if a.FutexWake? {
      WakeCost(s, a);
    } else {
      MoveCost(s, a);
    }
  }

  /** One step within its allowance of `c` a call. */
  lemma StepBudget(s: State, holder: Option<Tid>, a: Action)
    requires Inv(s, holder) && Enabled(s, a) && Quiet(a)
    ensures |Apply(s, a).pc| == |s.pc|
    ensures 1 + Potential(Apply(s, a)) <= Potential(s) + (if a.Begin? then HolderCost(|s.pc|) + 4 else 0)
  {
    if a.Begin? {
      BeginCost(s, a);
    } else {
      StepCost(s, a);
    }
  }

  /** A quiet run is no longer than its calls and its initial potential allow. */
  lemma {:induction false} RunCost(s: State, holder: Option<Tid>, acts: seq<Action>, c: nat)
    requires Inv(s, holder) && Runs(s, acts) && AllQuiet(acts)
    requires c == HolderCost(|s.pc|) + 4
    ensures |acts| + Potential(After(s, acts)) <= Potential(s) + c * Calls(acts)
    decreases |acts|
  {
    if acts == [] {
    } else {
      StepInv(s, holder, acts[0]);
      StepBudget(s, holder, acts[0]);
      RunCost(Apply(s, acts[0]), HolderAfter(s, holder, acts[0]), acts[1..], c);
      TimesSuccessor(c, Calls(acts[1..]));
    }
  }

  /** Nothing but a new call, a timeout or a signal can happen any more. */
  ghost predicate Stuck(s: State) {
    forall a: Action :: Enabled(s, a) ==> a.Begin? || a.Leave?
  }

  /** Not even a timeout. */
  ghost predicate Halted(s: State) {
    forall a: Action :: Enabled(s, a) ==> a.Begin? || (a.Leave? && a.code != ETimedOut)
  }

  ghost predicate AllDone(s: State) {
    s.value == UNLOCKED && s.queue == [] && forall t :: 0 <= t < |s.pc| ==> s.pc[t] == Idle
  }

  /** The holder of the mutex sleeps in a call that tries to take it, and all others that have
      not returned sleep too. With `timed` calls only those in `lock` itself. */
  ghost predicate WaitsForItself(s: State, timed: bool) {
    && (forall t :: 0 <= t < |s.pc| ==> s.pc[t].Idle? || (s.pc[t].Asleep? && (s.pc[t].timed ==> timed)))
    && exists t :: 0 <= t < |s.pc| && s.pc[t].Asleep? && s.pc[t].held
  }

  /** A thread inside the mutex, or awake in a call, always has a step to take. */
  lemma AwakeCanMove(s: State, t: Tid)
    requires Stuck(s) && t < |s.pc|
    ensures s.pc[t].Idle? || s.pc[t].Asleep?
  {
    assert Enabled(s, CompareExchange(t)) || Enabled(s, Exchange(t)) || Enabled(s, FutexWait(t))
      || Enabled(s, AfterWait(t)) || Enabled(s, FetchSub(t)) || Enabled(s, StoreUnlocked(t))
      || Enabled(s, FutexWake(t, 0)) || s.pc[t].Idle? || s.pc[t].Asleep?;
  }

  /** Where all threads are idle or asleep nobody is on the way to take care of the sleepers. */
  lemma SleepersNeedHolder(s: State, holder: Option<Tid>)
    requires Inv(s, holder)
    requires forall t :: 0 <= t < |s.pc| ==> s.pc[t].Idle? || s.pc[t].Asleep?
    ensures AllDone(s) || WaitsForItself(s, true)
  {
    assert forall t :: 0 <= t < |s.pc| ==> !WillTakeCare(s.pc[t]);
    assert !CaredFor(s);
    if s.value == UNLOCKED {
      assert forall t :: 0 <= t < |s.pc| && s.pc[t].Asleep? ==> t in s.queue;
    } else {
      assert Holds(s.pc[holder.value]);
    }
  }

  /** No deadlock but of a holder with itself: a stuck state is a finished one, or one in which
      the holder sleeps in a call of its own. */
  lemma StuckIsDone(s: State, holder: Option<Tid>)
    requires Inv(s, holder)
    ensures Stuck(s) <==> AllDone(s) || WaitsForItself(s, true)
  {
    if Stuck(s) {
      forall t | 0 <= t < |s.pc|
        ensures s.pc[t].Idle? || s.pc[t].Asleep?
      {
        AwakeCanMove(s, t);
      }
      SleepersNeedHolder(s, holder);
    }
  }

  lemma HaltedIsDone(s: State, holder: Option<Tid>)
    requires Inv(s, holder)
    ensures Halted(s) <==> AllDone(s) || WaitsForItself(s, false)
  {
    if Halted(s) {
      StuckIsDone(s, holder);
      forall t | 0 <= t < |s.pc| && s.pc[t].Asleep?
        ensures !s.pc[t].timed
      {
        assert !Enabled(s, Leave(t, ETimedOut));
      }
    }
  }

  lemma StartPotential(s: State, holder: Option<Tid>)
    requires Start(s, holder)
    ensures Potential(s) == if holder.Some? then HolderCost(|s.pc|) else 0
  {
    var idle: seq<Pc> := seq(|s.pc|, _ => Idle);
    SumByZero(CostOf(false, |s.pc|), idle);
    if holder.Some? {
      CostMoved(idle, holder.value, Owner, false, |s.pc|);
    }
  }

  /** Completion, first half: with n threads and c calls of any kind, a quiet run takes at
      most (6n + 10)c steps, plus 6n + 6 if the futex was constructed locked. */
  lemma {:induction false} RunsAreShort(s: State, holder: Option<Tid>, acts: seq<Action>)
    requires Start(s, holder) && Runs(s, acts) && AllQuiet(acts)
    ensures |acts| <= (6 * |s.pc| + 10) * Calls(acts) + (if holder.Some? then 6 * |s.pc| + 6 else 0)
  {
    StartInv(s, holder);
    StartPotential(s, holder);
    RunCost(s, holder, acts, 6 * |s.pc| + 10);
  }

  /** Completion, second half: after any run, quiet or not, no thread has a step left exactly
      when every call has returned, no thread waits, and the futex is free, or when the holder
      has called `lock` once more and waits for itself. */
  lemma StopsOnlyWhenDone(s: State, holder: Option<Tid>, acts: seq<Action>)
    requires Start(s, holder) && Runs(s, acts)
    ensures Stuck(After(s, acts)) <==> AllDone(After(s, acts)) || WaitsForItself(After(s, acts), true)
    ensures Halted(After(s, acts)) <==> AllDone(After(s, acts)) || WaitsForItself(After(s, acts), false)
  {
    StartInv(s, holder);
    var last := RunInv(s, holder, acts);
    StuckIsDone(After(s, acts), last);
    HaltedIsDone(After(s, acts), last);
  }

  // ----- the bound needs a quiet kernel

  /** A holder, and a waiter that is woken by a signal again and again. */
  function Pestered(k: nat): State {
    if k == 0 then State(2, [1], [Owner, Asleep(false, false)])
    else if k == 1 then State(2, [], [Owner, Back(false, EIntr, false)])
    else if k == 2 then State(2, [], [Owner, Xchg(false, false)])
    else if k == 3 then State(2, [], [Owner, WaitCall(false, false)])
    else State(2, [1], [Owner, Asleep(false, false)])
  }

  function Pestering(k: nat): Action {
    if k == 0 then Leave(1, EIntr) else if k == 1 then AfterWait(1) else if k == 2 then Exchange(1) else FutexWait(1)
  }

  lemma PesterStep(k: nat)
    requires k < 4
    ensures Enabled(Pestered(k), Pestering(k)) && Apply(Pestered(k), Pestering(k)) == Pestered(k + 1)
  {
    assert Without([1], 1) == [];
  }

  /** Signals can keep a waiter going for ever: without a quiet kernel a run with no new call at all
      can be as long as one likes. */
  lemma {:induction false} SignalsNeverEnd(n: nat) returns (acts: seq<Action>)
    ensures Runs(Pestered(0), acts) && After(Pestered(0), acts) == Pestered(0)
    ensures |acts| == 4 * n && Calls(acts) == 0
    ensures Inv(Pestered(0), Some(0))
    decreases n
  {
    if n == 0 {
      acts := [];
    } else {
      var rest := SignalsNeverEnd(n - 1);
      PesterStep(0);
      PesterStep(1);
      PesterStep(2);
      PesterStep(3);
      acts := Onward(3, rest);
      acts := Onward(2, acts);
      acts := Onward(1, acts);
      acts := Onward(0, acts);
    }
  }

  lemma Onward(k: nat, rest: seq<Action>) returns (acts: seq<Action>)
    requires k < 4 && Runs(Pestered(k + 1), rest)
    requires Enabled(Pestered(k), Pestering(k)) && Apply(Pestered(k), Pestering(k)) == Pestered(k + 1)
    ensures Runs(Pestered(k), acts) && After(Pestered(k), acts) == After(Pestered(k + 1), rest)
    ensures |acts| == |rest| + 1 && Calls(acts) == Calls(rest)
  {
    acts := [Pestering(k)] + rest;
    assert acts[1..] == rest;
  }

  // ----- who waits for itself

  /** No call of the run is a `lock` by a thread that holds the mutex. */
  predicate NoRelock(s: State, acts: seq<Action>)
    requires Runs(s, acts)
    decreases |acts|
  {
    acts == [] || (!IsRelock(s, acts[0]) && NoRelock(Apply(s, acts[0]), acts[1..]))
  }

  predicate IsRelock(s: State, a: Action)
    requires Enabled(s, a)
  {
    a.Begin? && a.call == Lock && s.pc[a.t].Owner?
  }

  /** Inside a `lock` that was called by the holder. */
  predicate Relocking(pc: Pc) {
    InCall(pc) && pc.held && if pc.Cas? then pc.call == Lock else !pc.timed
  }

  lemma RelockStep(s: State, holder: Option<Tid>, a: Action, t: Tid)
    requires Inv(s, holder) && Enabled(s, a) && t < |s.pc|
    ensures |Apply(s, a).pc| == |s.pc|
    ensures Relocking(Apply(s, a).pc[t]) <==> Relocking(s.pc[t]) || (IsRelock(s, a) && a.t == t)
  {
    assert Holds(s.pc[t]) <==> holder == Some(t);
  }

  ghost predicate SomeoneRelocks(s: State) {
    exists t :: 0 <= t < |s.pc| && Relocking(s.pc[t])
  }

  lemma SomeoneStep(s: State, holder: Option<Tid>, a: Action)
    requires Inv(s, holder) && Enabled(s, a)
    ensures SomeoneRelocks(Apply(s, a)) <==> SomeoneRelocks(s) || IsRelock(s, a)
  {
    RelockStep(s, holder, a, a.t);
    if SomeoneRelocks(Apply(s, a)) {
      var t :| 0 <= t < |Apply(s, a).pc| && Relocking(Apply(s, a).pc[t]);
      RelockStep(s, holder, a, t);
    }
    if SomeoneRelocks(s) {
      var t :| 0 <= t < |s.pc| && Relocking(s.pc[t]);
      RelockStep(s, holder, a, t);
    }
  }

  /** Over a run some thread relocks if and only if one did before or the run has such a call:
      the call never ends. */
  lemma {:induction false} RelockNeverReturns(s: State, holder: Option<Tid>, acts: seq<Action>)
    requires Inv(s, holder) && Runs(s, acts)
    ensures SomeoneRelocks(After(s, acts)) <==> SomeoneRelocks(s) || !NoRelock(s, acts)
    decreases |acts|
  {
    if acts == [] {
    } else {
      StepInv(s, holder, acts[0]);
      SomeoneStep(s, holder, acts[0]);
      RelockNeverReturns(Apply(s, acts[0]), HolderAfter(s, holder, acts[0]), acts[1..]);
    }
  }

  /** Completion, the exact condition: a run that halts has finished every call, with the queue
      empty and the futex free, if and only if no holder called `lock` in it. */
  lemma DoneUnlessRelocked(s: State, holder: Option<Tid>, acts: seq<Action>)
    requires Start(s, holder) && Runs(s, acts) && Halted(After(s, acts))
    ensures AllDone(After(s, acts)) <==> NoRelock(s, acts)
  {
    StartInv(s, holder);
    StopsOnlyWhenDone(s, holder, acts);
    RelockNeverReturns(s, holder, acts);
  }
}
