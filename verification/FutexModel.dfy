// The three-state futex mutex as a step system: one action is one atomic operation
// on the futex word, one kernel decision, or one local branch between two of them.

module FutexModel {

  type Tid = nat

  const UNLOCKED := 0
  const LOCKED_NOWAITERS := 1
  const LOCKED_WAITERS := 2

  /** The calls that try to take the mutex. */
  datatype Call = Lock | TryLock | TryLockTimeout

  /** What `futex_wait` reports: zero, or -1 with one of three values of `errno`. */
  datatype Code = Zero | EAgain | EIntr | ETimedOut

  /** Where a thread is. The flag `timed` tells `wait_timeout` from `wait`; `held` is set when
      the caller held the mutex at the call, as a holder may try to take it once more. */
  datatype Pc =
    | Idle                                         // in no call, and not the holder
    | Cas(call: Call, held: bool)                  // about to compare_exchange 0 -> 1
    | Xchg(timed: bool, held: bool)                // about to exchange the word for 2
    | WaitCall(timed: bool, held: bool)            // about to enter futex_wait(2)
    | Asleep(timed: bool, held: bool)              // in the kernel's queue
    | Back(timed: bool, code: Code, held: bool)    // futex_wait has returned `code`
    | Owner                                        // inside the lock, in no call
    | Rel                                          // fetch_sub returned 2, store(0) is next
    | Waker                                        // store(0) is done, futex_wake(1) is next

  datatype State = State(value: int, queue: seq<Tid>, pc: seq<Pc>)

  datatype Action =
    | Begin(t: Tid, call: Call)
    | CompareExchange(t: Tid)
    | Exchange(t: Tid)
    | FutexWait(t: Tid)
    | Leave(t: Tid, code: Code)        // the kernel ends a wait nobody woke
    | AfterWait(t: Tid)
    | FetchSub(t: Tid)
    | StoreUnlocked(t: Tid)
    | FutexWake(t: Tid, k: nat)        // the kernel wakes the k-th waiter, if any

  /** A freshly constructed futex, `n` threads, all outside any call. */
  function Init(n: nat): State {
    State(UNLOCKED, [], seq(n, _ => Idle))
  }

  /** `Futex(true)`: constructed locked, on behalf of thread `owner`. */
  function InitLocked(n: nat, owner: Tid): State
    requires owner < n
  {
    State(LOCKED_NOWAITERS, [], seq(n, _ => Idle)[owner := Owner])
  }

  /** In one of the calls that try to take the mutex. */
  predicate InCall(pc: Pc) {
    pc.Cas? || pc.Xchg? || pc.WaitCall? || pc.Asleep? || pc.Back?
  }

  /** Where a call that returns false leaves its caller. */
  function Returned(held: bool): Pc {
    if held then Owner else Idle
  }

  predicate Enabled(s: State, a: Action) {
    && a.t < |s.pc|
    && var pc := s.pc[a.t];
       match a
       case Begin(_, _) => pc.Idle? || pc.Owner?
       case CompareExchange(_) => pc.Cas?
       case Exchange(_) => pc.Xchg?
       case FutexWait(_) => pc.WaitCall?
       case Leave(_, code) => pc.Asleep? && code != EAgain && (code == ETimedOut ==> pc.timed)
       case AfterWait(_) => pc.Back?
       case FetchSub(_) => pc.Owner?
       case StoreUnlocked(_) => pc.Rel?
       case FutexWake(_, k) => pc.Waker? && (k < |s.queue| || (s.queue == [] && k == 0))
  }

  /** The queue without thread `t`. */
  function Without(q: seq<Tid>, t: Tid): seq<Tid> {
    if q == [] then [] else if q[0] == t then Without(q[1..], t) else [q[0]] + Without(q[1..], t)
  }

  lemma {:induction false} WithoutMembers(q: seq<Tid>, t: Tid)
    ensures forall u :: u in Without(q, t) <==> u in q && u != t
  {
    if q == [] {
    } else {
      WithoutMembers(q[1..], t);
      assert q == [q[0]] + q[1..];
    }
  }

  function Moved(s: State, t: Tid, pc: Pc): State
    requires t < |s.pc|
  {
    s.(pc := s.pc[t := pc])
  }

  /** What one action does to the word, the wait queue and its thread. */
  function Apply(s: State, a: Action): State
    requires Enabled(s, a)
  {
    var pc := s.pc[a.t];
    match a
    case Begin(t, call) => Moved(s, t, Cas(call, pc.Owner?))
    case CompareExchange(t) =>
      if s.value == UNLOCKED then Moved(s, t, Owner).(value := LOCKED_NOWAITERS)
      else if pc.call == TryLock then Moved(s, t, Returned(pc.held))
      else if s.value == LOCKED_WAITERS then Moved(s, t, WaitCall(pc.call == TryLockTimeout, pc.held))
      else Moved(s, t, Xchg(pc.call == TryLockTimeout, pc.held))
    case Exchange(t) =>
      Moved(s, t, if s.value == UNLOCKED then Owner else WaitCall(pc.timed, pc.held)).(value := LOCKED_WAITERS)
    case FutexWait(t) =>
      if s.value == LOCKED_WAITERS then Moved(s, t, Asleep(pc.timed, pc.held)).(queue := s.queue + [t])
      else Moved(s, t, Back(pc.timed, EAgain, pc.held))
    case Leave(t, code) => Moved(s, t, Back(pc.timed, code, pc.held)).(queue := Without(s.queue, t))
    case AfterWait(t) => Moved(s, t, if pc.code == ETimedOut then Returned(pc.held) else Xchg(pc.timed, pc.held))
    case FetchSub(t) =>
      Moved(s, t, if s.value == LOCKED_WAITERS then Rel else Idle).(value := s.value - 1)
    case StoreUnlocked(t) => Moved(s, t, Waker).(value := UNLOCKED)
    case FutexWake(t, k) =>
      var quiet := Moved(s, t, Idle);
      if s.queue == [] then quiet else Woken(quiet, s.queue[k])
  }

  /** Thread `u` is taken out of the queue by a wake: its wait returns zero. */
  function Woken(s: State, u: Tid): State {
    var q := s.(queue := Without(s.queue, u));
    if u < |s.pc| && s.pc[u].Asleep? then Moved(q, u, Back(s.pc[u].timed, Zero, s.pc[u].held)) else q
  }

  /** The actions of a schedule can be taken one after another. */
  predicate Runs(s: State, acts: seq<Action>)
    decreases |acts|
  {
    acts == [] || (Enabled(s, acts[0]) && Runs(Apply(s, acts[0]), acts[1..]))
  }

  function After(s: State, acts: seq<Action>): State
    requires Runs(s, acts)
    decreases |acts|
  {
    if acts == [] then s else After(Apply(s, acts[0]), acts[1..])
  }

  /** Two runs, one after the other. */
  lemma {:induction false} RunsConcat(s: State, xs: seq<Action>, ys: seq<Action>)
    requires Runs(s, xs) && Runs(After(s, xs), ys)
    ensures Runs(s, xs + ys) && After(s, xs + ys) == After(After(s, xs), ys)
    decreases |xs|
  {
    if xs == [] {
      assert xs + ys == ys;
    } else {
      assert (xs + ys)[1..] == xs[1..] + ys;
      RunsConcat(Apply(s, xs[0]), xs[1..], ys);
    }
  }
}
