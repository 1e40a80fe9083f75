// The futex as an object whose fields the atomic operations update, and the calls of the
// source as programs over those operations, run against an arbitrary environment.

module FutexSystem {
  import opened Common
  import opened Schedules
  import opened FutexModel
  import opened FutexSafety

  /** How a call that tries to take the mutex ends; `Blocked` is a call that is still asleep
      when the environment has nothing more to do. */
  datatype Outcome = Owned | NotOwned | Blocked

  class Futex {
    var value: int           // the futex word
    var queue: seq<Tid>      // the kernel's wait queue
    var pc: seq<Pc>          // where each thread is
    ghost var holder: Option<Tid>
    ghost const start: State // as constructed
    ghost var history: seq<Action>

    ghost function View(): State
      reads this
    {
      State(value, queue, pc)
    }

    /** The object's whole life is a run of the model, so every theorem on runs applies to it. */
    ghost predicate Valid()
      reads this
    {
      && (exists h :: Start(start, h))
      && Runs(start, history)
      && View() == After(start, history)
      && Inv(View(), holder)
    }

    /** One action has been carried out on the fields; write it down. */
    ghost method Record(s: State, a: Action)
      requires exists h :: Start(start, h)
      requires Runs(start, history) && s == After(start, history) && Inv(s, holder)
      requires Enabled(s, a) && View() == Apply(s, a)
      modifies this`holder, this`history
      ensures Valid() && history == old(history) + [a]
      ensures holder == HolderAfter(s, old(holder), a)
    {
      StepInv(s, holder, a);
      RunsConcat(start, history, [a]);
      holder := HolderAfter(s, holder, a);
      history := history + [a];
    }

    constructor (n: nat)
      ensures Valid() && View() == Init(n) && holder == None && history == []
      ensures value == 0 && queue == [] && |pc| == n && forall t :: 0 <= t < n ==> pc[t] == Idle
    {
      value, queue, pc := UNLOCKED, [], seq(n, _ => Idle);
      holder, start, history := None, Init(n), [];
      new;
      assert Start(start, None);
      StartInv(View(), None);
    }

    constructor Locked(n: nat, owner: Tid)
      requires owner < n
      ensures Valid() && View() == InitLocked(n, owner) && holder == Some(owner) && history == []
      ensures value == 1 && queue == [] && |pc| == n
      ensures forall t :: 0 <= t < n ==> pc[t] == if t == owner then Owner else Idle
    {
      value, queue, pc := LOCKED_NOWAITERS, [], seq(n, _ => Idle)[owner := Owner];
      holder, start, history := Some(owner), InitLocked(n, owner), [];
      new;
      assert Start(start, Some(owner));
      StartInv(View(), Some(owner));
    }

    // ----- atomic operations

    /** A call begins; a holder may call too. */
    method Begin(t: Tid, call: Call)
      requires Valid() && t < |pc| && pc[t] in {Idle, Owner}
      modifies this
      ensures Valid() && Enabled(old(View()), Action.Begin(t, call)) && View() == Apply(old(View()), Action.Begin(t, call))
      ensures history == old(history) + [Action.Begin(t, call)]
      ensures value == old(value) && queue == old(queue) && pc == old(pc)[t := Cas(call, old(pc)[t] == Owner)]
    {
      ghost var s := View();
      pc := pc[t := Cas(call, pc[t].Owner?)];
      Record(s, Action.Begin(t, call));
    }

    /** `value.compare_exchange_strong(expected_found, LOCKED_NOWAITERS)` with expected 0. A failure
        leaves word and queue alone; `trylock` then is over, and the others go to the slow path,
        past its first exchange if they found 2. */
    method CompareExchange(t: Tid) returns (exchanged: bool, found: int)
      requires Valid() && t < |pc| && pc[t].Cas?
      modifies this
      ensures Valid() && Enabled(old(View()), Action.CompareExchange(t)) && View() == Apply(old(View()), Action.CompareExchange(t))
      ensures history == old(history) + [Action.CompareExchange(t)]
      ensures found == old(value) && exchanged == (found == 0)
      ensures exchanged ==> !old(pc)[t].held
      ensures queue == old(queue) && value == if exchanged then 1 else old(value)
      ensures var was := old(pc)[t];
              pc == old(pc)[t :=
                if exchanged then Owner
                else if was.call == TryLock then (if was.held then Owner else Idle)
                else if found == 2 then WaitCall(was.call == TryLockTimeout, was.held)
                else Xchg(was.call == TryLockTimeout, was.held)]
    {
      ghost var s := View();
      found := value;
      exchanged := found == UNLOCKED;
      assert exchanged ==> !Holds(pc[t]);
      var call, held := pc[t].call, pc[t].held;
      if exchanged {
        value := LOCKED_NOWAITERS;
        pc := pc[t := Owner];
      } else if call == TryLock {
        pc := pc[t := Returned(held)];
      } else if found == LOCKED_WAITERS {
        pc := pc[t := WaitCall(call == TryLockTimeout, held)];
      } else {
        pc := pc[t := Xchg(call == TryLockTimeout, held)];
      }
      Record(s, Action.CompareExchange(t));
    }

    /** `value.exchange(LOCKED_WAITERS)`. */
    method Exchange(t: Tid) returns (cached: int)
      requires Valid() && t < |pc| && pc[t].Xchg?
      modifies this
      ensures Valid() && Enabled(old(View()), Action.Exchange(t)) && View() == Apply(old(View()), Action.Exchange(t))
      ensures history == old(history) + [Action.Exchange(t)]
      ensures cached == old(value) && value == 2 && queue == old(queue)
      ensures pc == old(pc)[t := if cached == 0 then Owner else WaitCall(old(pc)[t].timed, old(pc)[t].held)]
      ensures cached == 0 ==> !old(pc)[t].held
    {
      ghost var s := View();
      cached := value;
      assert cached == UNLOCKED ==> !Holds(pc[t]);
      value := LOCKED_WAITERS;
      if cached == UNLOCKED {
        pc := pc[t := Owner];
      } else {
        pc := pc[t := WaitCall(pc[t].timed, pc[t].held)];
      }
      Record(s, Action.Exchange(t));
    }

    /** The entry of `futex_wait(LOCKED_WAITERS)`: compare and enqueue in one step. */
    method FutexWait(t: Tid) returns (slept: bool)
      requires Valid() && t < |pc| && pc[t].WaitCall?
      modifies this
      ensures Valid() && Enabled(old(View()), Action.FutexWait(t)) && View() == Apply(old(View()), Action.FutexWait(t))
      ensures history == old(history) + [Action.FutexWait(t)]
      ensures slept == (old(value) == 2) && value == old(value)
      ensures queue == if slept then old(queue) + [t] else old(queue)
      ensures var was := old(pc)[t];
              pc == old(pc)[t := if slept then Asleep(was.timed, was.held) else Back(was.timed, EAgain, was.held)]
    {
      ghost var s := View();
      slept := value == LOCKED_WAITERS;
      if slept {
        queue := queue + [t];
        pc := pc[t := Asleep(pc[t].timed, pc[t].held)];
      } else {
        pc := pc[t := Back(pc[t].timed, EAgain, pc[t].held)];
      }
      Record(s, Action.FutexWait(t));
    }

    /** The kernel ends the wait of a queued thread: signal, timeout, or for no reason. */
    method Leave(t: Tid, code: Code)
      requires Valid() && t < |pc| && pc[t].Asleep?
      requires code in {Zero, EIntr} || (code == ETimedOut && pc[t].timed)
      modifies this
      ensures Valid() && Enabled(old(View()), Action.Leave(t, code)) && View() == Apply(old(View()), Action.Leave(t, code))
      ensures history == old(history) + [Action.Leave(t, code)]
      ensures value == old(value) && queue == Without(old(queue), t)
      ensures pc == old(pc)[t := Back(old(pc)[t].timed, code, old(pc)[t].held)]
    {
      ghost var s := View();
      queue := Without(queue, t);
      pc := pc[t := Back(pc[t].timed, code, pc[t].held)];
      Record(s, Action.Leave(t, code));
    }

    /** The test of the result of `futex_wait`. */
    method AfterWait(t: Tid) returns (timedOut: bool)
      requires Valid() && t < |pc| && pc[t].Back?
      modifies this
      ensures Valid() && Enabled(old(View()), Action.AfterWait(t)) && View() == Apply(old(View()), Action.AfterWait(t))
      ensures history == old(history) + [Action.AfterWait(t)]
      ensures timedOut == (old(pc)[t].code == ETimedOut) && value == old(value) && queue == old(queue)
      ensures var was := old(pc)[t];
              pc == old(pc)[t :=
                if !timedOut then Xchg(was.timed, was.held) else if was.held then Owner else Idle]
    {
      ghost var s := View();
      timedOut := pc[t].code == ETimedOut;
      pc := pc[t := if timedOut then Returned(pc[t].held) else Xchg(pc[t].timed, pc[t].held)];
      Record(s, Action.AfterWait(t));
    }

    /** `value.fetch_sub(1)`. */
    method FetchSub(t: Tid) returns (found: int)
      requires Valid() && t < |pc| && pc[t] == Owner
      modifies this
      ensures Valid() && Enabled(old(View()), Action.FetchSub(t)) && View() == Apply(old(View()), Action.FetchSub(t))
      ensures history == old(history) + [Action.FetchSub(t)]
      ensures found == old(value) && value == found - 1 >= 0 && queue == old(queue)
      ensures pc == old(pc)[t := if found == 2 then Rel else Idle]
    {
      ghost var s := View();
      found := value;
      value := value - 1;
      if found == LOCKED_WAITERS {
        pc := pc[t := Rel];
      } else {
        pc := pc[t := Idle];
      }
      Record(s, Action.FetchSub(t));
    }

    /** `value.store(UNLOCKED)`. */
    method StoreUnlocked(t: Tid)
      requires Valid() && t < |pc| && pc[t] == Rel
      modifies this
      ensures Valid() && Enabled(old(View()), Action.StoreUnlocked(t)) && View() == Apply(old(View()), Action.StoreUnlocked(t))
      ensures history == old(history) + [Action.StoreUnlocked(t)]
      ensures value == 0 && queue == old(queue) && pc == old(pc)[t := Waker]
    {
      ghost var s := View();
      value := UNLOCKED;
      pc := pc[t := Waker];
      Record(s, Action.StoreUnlocked(t));
    }

    /** `futex_wake(1)`; the kernel picks waiter number `k`, who is asleep and is told zero. */
    method FutexWake(t: Tid, k: nat)
      requires Valid() && t < |pc| && pc[t] == Waker && (k < |queue| || (queue == [] && k == 0))
      modifies this
      ensures Valid() && Enabled(old(View()), Action.FutexWake(t, k)) && View() == Apply(old(View()), Action.FutexWake(t, k))
      ensures history == old(history) + [Action.FutexWake(t, k)]
      ensures value == old(value)
      ensures old(queue) == [] ==> queue == [] && pc == old(pc)[t := Idle]
      ensures old(queue) != [] ==>
                var u := old(queue)[k];
                && u < |old(pc)| && old(pc)[u].Asleep?
                && queue == Without(old(queue), u) && |queue| == |old(queue)| - 1
                && pc == old(pc)[t := Idle][u := Back(old(pc)[u].timed, Zero, old(pc)[u].held)]
    {
      ghost var s := View();
      assert queue != [] ==> queue[k] in queue;
      pc := pc[t := Idle];
      if queue != [] {
        var u := queue[k];
        pc := pc[u := Back(pc[u].timed, Zero, pc[u].held)];
        WithoutLength(queue, u);
        queue := Without(queue, u);
      }
      Record(s, Action.FutexWake(t, k));
    }

    /** Any action, by name. */
    method Step(a: Action)
      requires Valid() && Enabled(View(), a)
      modifies this
      ensures Valid() && View() == Apply(old(View()), a) && history == old(history) + [a]
    {
      match a {
        case Begin(t, call) => Begin(t, call);
        case CompareExchange(t) => var _, _ := CompareExchange(t);
        case Exchange(t) => var _ := Exchange(t);
        case FutexWait(t) => var _ := FutexWait(t);
        case Leave(t, code) => Leave(t, code);
        case AfterWait(t) => var _ := AfterWait(t);
        case FetchSub(t) => var _ := FetchSub(t);
        case StoreUnlocked(t) => StoreUnlocked(t);
        case FutexWake(t, k) => FutexWake(t, k);
      }
    }

    // ----- the calls, as programs

    /** The call of thread `t` that `c` records has led to the present state. */
    ghost predicate On(c: FutexLog, t: Tid)
      reads this
    {
      Valid() && t < |pc| && IsLog(Mine(t), Others(t), c, View(), history)
    }

    /** A batch of the other threads and the kernel, tried in order: what cannot be done when its
        turn comes is skipped, everything else is done. */
    method Interfere(t: Tid, env: seq<Action>, ghost c: FutexLog) returns (ghost d: FutexLog)
      requires On(c, t)
      modifies this
      ensures On(d, t) && d == Grown(c, Round(env))
      ensures var tried := Tried(Others(t), old(View()), env);
              View() == tried.now && history == old(history) + tried.acts
      ensures |pc| == |old(pc)| && StaysOrWakes(old(pc[..])[t], pc[t])
    {
      ghost var s, h := View(), history;
      for i := 0 to |env|
        invariant Valid() && |pc| == |s.pc| && StaysOrWakes(s.pc[t], pc[t])
        invariant var tried := Tried(Others(t), s, env[..i]);
                  View() == tried.now && history == h + tried.acts
      {
        TriedOneMore(Others(t), s, env, i);
        if Enabled(State(value, queue, pc), env[i]) && OfEnvironment(env[i], t) {
          EnvironmentMoves(View(), holder, env[i], t);
          Step(env[i]);
        }
      }
      assert env[..|env|] == env;
      d := Grown(c, Round(env));
      LogRound(Mine(t), Others(t), c, s, h, env);
    }

    /** The environment goes on, batch after batch, while thread `t` is asleep. */
    method Sleep(t: Tid, env: seq<seq<Action>>, first: nat, ghost c: FutexLog) returns (next: nat, ghost d: FutexLog)
      requires On(c, t) && pc[t].Asleep? && UpTo(c, env, first)
      modifies this
      ensures On(d, t) && SameCall(c, d) && UpTo(d, env, next) && Owns(d.done) == Owns(c.done)
      ensures StaysOrWakes(old(pc[..])[t], pc[t])
      ensures pc[t].Asleep? ==> next >= |env|
      ensures next >= first && (first >= |env| ==> pc[t] == old(pc[..])[t])
    {
      hide Inv, Runs, After, IsLog;
      next, d := first, c;
      ghost var was := pc[t];
      while pc[t].Asleep? && next < |env|
        invariant On(d, t) && SameCall(c, d) && UpTo(d, env, next) && Owns(d.done) == Owns(c.done)
        invariant next >= first && StaysOrWakes(was, pc[t])
        invariant first < |env| || pc[t] == was
      {
        OneRound(d, env, next);
        d := Interfere(t, env[next], d);
        next := next + 1;
      }
    }

    /** One `futex_wait` and the test of its result: owing an exchange, timed out, or asleep when
        the whole of `env` has been tried. */
    method WaitOnce(t: Tid, env: seq<seq<Action>>, first: nat, ghost c: FutexLog)
      returns (next: nat, timedOut: bool, ghost d: FutexLog)
      requires On(c, t) && pc[t].WaitCall? && UpTo(c, env, first)
      modifies this
      ensures On(d, t) && SameCall(c, d) && UpTo(d, env, next) && next >= first
      ensures InLoop(Owns(c.done)) ==> GoesOn(Owns(c.done), Owns(d.done))
      ensures var was := old(pc[..])[t];
              && (timedOut ==> was.timed)
              && if timedOut then pc[t] == Returned(was.held)
                 else pc[t] in {Xchg(was.timed, was.held), Asleep(was.timed, was.held)}
      ensures pc[t].Asleep? ==> next >= |env|
      ensures first >= |env| ==> pc[t].Asleep? || old(value) != LOCKED_WAITERS
    {
      hide Inv, Runs, After, IsLog, UpTo, InLoop, Owns;
      Acted(c, t, View(), history, Action.FutexWait(t));
      var slept := FutexWait(t);
      next, timedOut, d := first, false, Grown(c, Own(Action.FutexWait(t)));
      if slept {
        next, d := Sleep(t, env, first, d);
      }
      if !pc[t].Asleep? {
        Acted(d, t, View(), history, Action.AfterWait(t));
        d := Grown(d, Own(Action.AfterWait(t)));
        timedOut := AfterWait(t);
      }
    }

    /** `value.exchange(2)`, after one batch of the environment. */
    method ExchangeAmid(t: Tid, env: seq<seq<Action>>, i: nat, ghost c: FutexLog) returns (cached: int, ghost d: FutexLog)
      requires On(c, t) && pc[t].Xchg? && UpTo(c, env, i)
      modifies this
      ensures On(d, t) && SameCall(c, d) && UpTo(d, env, i + 1)
      ensures InLoop(Owns(c.done)) ==> GoesOn(Owns(c.done), Owns(d.done))
      ensures var was := old(pc[..])[t];
              && value == LOCKED_WAITERS && pc[t] == (if cached == UNLOCKED then Owner else WaitCall(was.timed, was.held))
              && (cached == UNLOCKED ==> !was.held)
    {
      hide Inv, Runs, After, IsLog, UpTo, InLoop, Owns;
      OneRound(c, env, i);
      d := Interfere(t, Batch(env, i), c);
      Acted(d, t, View(), history, Action.Exchange(t));
      d := Grown(d, Own(Action.Exchange(t)));
      cached := Exchange(t);
    }

    /** One round of the loop of the slow path: a batch of the environment, the wait, and, unless the
        call is over or the thread sleeps on, the exchange. */
    method WaitRound(t: Tid, env: seq<seq<Action>>, first: nat, ghost c: FutexLog)
      returns (over: bool, timedOut: bool, cached: int, next: nat, ghost d: FutexLog)
      requires On(c, t) && pc[t].WaitCall? && UpTo(c, env, first)
      modifies this
      ensures On(d, t) && SameCall(c, d) && UpTo(d, env, next) && next >= first
      ensures InLoop(Owns(c.done)) ==> GoesOn(Owns(c.done), Owns(d.done))
      ensures var was := old(pc[..])[t];
              && (timedOut ==> was.timed)
              && over == (timedOut || pc[t].Asleep?)
              && (timedOut ==> pc[t] == Returned(was.held))
              && (over && !timedOut ==> pc[t] == Asleep(was.timed, was.held) && next >= |env|)
              && (!over ==> pc[t] == (if cached == UNLOCKED then Owner else WaitCall(was.timed, was.held)) && value == LOCKED_WAITERS)
              && (!over && cached == UNLOCKED ==> !was.held)
      ensures !over && first < |env| ==> next > first
      ensures first >= |env| ==> over || old(value) != LOCKED_WAITERS
    {
      hide Valid, IsLog, UpTo, InLoop, Owns;
      d, next, cached := c, first, LOCKED_WAITERS;
      if next < |env| {
        OneRound(d, env, next);
        d := Interfere(t, env[next], d);
        next := next + 1;
      }
      next, timedOut, d := WaitOnce(t, env, next, d);
      over := timedOut || pc[t].Asleep?;
      if !over {
        cached, d := ExchangeAmid(t, env, next, d);
        next := next + 1;
      }
    }

    /** `Futex::wait` and, when the call is a timed one, `Futex::wait_timeout`. Before every access
        to the word the environment does one more batch of `env`, and all the rest of it while the
        thread sleeps. */
    method Wait(t: Tid, cachedState: int, env: seq<seq<Action>>, first: nat, ghost c: FutexLog)
      returns (o: Outcome, ghost d: FutexLog)
      requires On(c, t) && cachedState != UNLOCKED && UpTo(c, env, first) && InLoop(Owns(c.done))
      requires if cachedState == LOCKED_WAITERS then pc[t].WaitCall? else pc[t].Xchg?
      modifies this
      ensures On(d, t) && SameCall(c, d) && GoesOn(Owns(c.done), Owns(d.done))
      ensures EndsCall(o, pc[t], old(pc[..])[t].timed, old(pc[..])[t].held)
      ensures GaveBatches(d, env) && (o == Blocked ==> GaveAll(d, env))
    {
      hide Valid, IsLog, UpTo, InLoop, Owns;
      ghost var timed, held := pc[t].timed, pc[t].held;
      var cached, i := cachedState, first;
      d := c;
      if cached != LOCKED_WAITERS {
        cached, d := ExchangeAmid(t, env, i, d);
        i := i + 1;
      }
      while cached != UNLOCKED
        invariant On(d, t) && SameCall(c, d) && UpTo(d, env, i) && GoesOn(Owns(c.done), Owns(d.done))
        invariant pc[t] == (if cached == UNLOCKED then Owner else WaitCall(timed, held))
        invariant cached == UNLOCKED ==> !held
        decreases if i < |env| then |env| - i else 0, if value == LOCKED_WAITERS then 0 else 1
      {
        var over, timedOut;
        over, timedOut, cached, i, d := WaitRound(t, env, i, d);
        if over {
          GaveUpTo(d, env, i);
          return if timedOut then NotOwned else Blocked, d;
        }
      }
      GaveUpTo(d, env, i);
      o := Owned;
    }

    lemma HolderKnown(t: Tid)
      requires Valid() && t < |pc|
      ensures Holds(pc[t]) <==> holder == Some(t)
    {
    }

    /** The call and its compare-exchange, with the first batch of the environment between them. */
    method TryAmid(t: Tid, call: Call, env: seq<seq<Action>>) returns (exchanged: bool, found: int, ghost d: FutexLog)
      requires Valid() && t < |pc| && pc[t] in {Idle, Owner}
      modifies this
      ensures On(d, t) && d.s == old(View()) && d.h == old(history)
      ensures UpTo(d, env, 1) && IsTaking(Owns(d.done), t, call)
      ensures var held := old(pc)[t] == Owner;
              && exchanged == (found == UNLOCKED)
              && (exchanged ==> !held)
              && pc[t] == if exchanged then Owner
                          else if call == TryLock then Returned(held)
                          else if found == LOCKED_WAITERS then WaitCall(call == TryLockTimeout, held)
                          else Xchg(call == TryLockTimeout, held)
    {
      hide Inv, Runs, After, IsLog, UpTo, InLoop, Owns;
      ghost var c := CallLog(View(), history, []);
      LogBegins(Mine(t), Others(t), c, env);
      Acted(c, t, View(), history, Action.Begin(t, call));
      Begin(t, call);
      d := Grown(c, Own(Action.Begin(t, call)));
      OneRound(d, env, 0);
      d := Interfere(t, Batch(env, 0), d);
      Acted(d, t, View(), history, Action.CompareExchange(t));
      exchanged, found := CompareExchange(t);
      d := Grown(d, Own(Action.CompareExchange(t)));
      LoopBegins(t, call);
    }

    /** `lock`, `trylock` and `trylock_timeout`, by a thread that may hold the mutex already. `d`
        tells what was done: the thread's own actions are those of one call, and between them the
        environment did the batches of `env` in order, all of them if the call is still asleep. */
    method Take(t: Tid, call: Call, env: seq<seq<Action>>) returns (o: Outcome, ghost d: FutexLog)
      requires Valid() && t < |pc| && pc[t] in {Idle, Owner}
      modifies this
      ensures On(d, t) && d.s == old(View()) && d.h == old(history)
      ensures EndsCall(o, pc[t], call != Lock, old(pc)[t] == Owner) && (call == TryLock ==> o != Blocked)
      ensures o == Owned ==> holder == Some(t)
      ensures o == NotOwned ==> (holder == Some(t) <==> old(pc)[t] == Owner)
      ensures IsTaking(Owns(d.done), t, call)
      ensures GaveBatches(d, env) && (o == Blocked ==> GaveAll(d, env))
    {
      hide Inv, Runs, After, IsLog, UpTo, InLoop, Owns;
      var exchanged, found;
      exchanged, found, d := TryAmid(t, call, env);
      GaveUpTo(d, env, 1);
      if exchanged {
        o := Owned;
      } else if call == TryLock {
        o := NotOwned;
      } else {
        o, d := Wait(t, found, env, 1, d);
      }
      HolderKnown(t);
    }

    /** `Futex::wake`; `pick` is the kernel's choice among the waiters there are at the wake. */
    method Wake(t: Tid, pick: nat, env: seq<Action>, ghost c: FutexLog) returns (k: nat, ghost waiting: seq<Tid>, ghost d: FutexLog)
      requires On(c, t) && pc[t] == Rel
      modifies this
      ensures k == if waiting == [] then 0 else pick % |waiting|
      ensures waiting == [] ==> queue == []
      ensures waiting != [] ==> queue == Without(waiting, waiting[k])
      ensures On(d, t) && pc[t] == Idle
      ensures d == Grown(Grown(Grown(c, Own(Action.StoreUnlocked(t))), Round(env)), Own(Action.FutexWake(t, k)))
    {
      hide Inv, Runs, After, IsLog;
      Acted(c, t, View(), history, Action.StoreUnlocked(t));
      StoreUnlocked(t);
      d := Grown(c, Own(Action.StoreUnlocked(t)));
      d := Interfere(t, env, d);
      waiting := queue;
      k := if queue == [] then 0 else pick % |queue|;
      Acted(d, t, View(), history, Action.FutexWake(t, k));
      d := Grown(d, Own(Action.FutexWake(t, k)));
      FutexWake(t, k);
    }

    /** `unlock`: one `fetch_sub` and, if it found 2, the store, the wake, and the environment's
        batches between them. */
    method Unlock(t: Tid, pick: nat, env: seq<seq<Action>>) returns (ghost waiting: seq<Tid>, ghost d: FutexLog)
      requires Valid() && t < |pc| && pc[t] == Owner
      modifies this
      ensures On(d, t) && pc[t] == Idle && d.s == old(View()) && d.h == old(history)
      ensures old(value) != LOCKED_WAITERS ==> d.done == [Own(Action.FetchSub(t))] && value == UNLOCKED
      ensures old(value) == LOCKED_WAITERS ==>
                && |d.done| == 5 && d.done[..4] == ContendedRelease(t, env)
                && d.done[4] == Own(Action.FutexWake(t, if waiting == [] then 0 else pick % |waiting|))
                && (waiting == [] ==> queue == [])
                && (waiting != [] ==> queue == Without(waiting, waiting[pick % |waiting|]))
    {
      hide Inv, Runs, After, IsLog;
      ghost var c := CallLog(View(), history, []);
      LogBegins(Mine(t), Others(t), c, env);
      OwnerWord(t);
      Acted(c, t, View(), history, Action.FetchSub(t));
      var found := FetchSub(t);
      d, waiting := Grown(c, Own(Action.FetchSub(t))), [];
      if found == LOCKED_WAITERS {
        d := Interfere(t, Batch(env, 0), d);
        var k;
        k, waiting, d := Wake(t, pick, Batch(env, 1), d);
      }
    }

    lemma OwnerWord(t: Tid)
      requires Valid() && t < |pc| && pc[t] == Owner
      ensures value in {LOCKED_NOWAITERS, LOCKED_WAITERS}
    {
      assert Holds(pc[t]);
    }
  }

  // ----- what a call amounts to

  type FutexLog = CallLog<State, Action>

  /** What the environment of thread `t` may do: everything other threads do, and the kernel's
      decision to end t's wait. */
  predicate OfEnvironment(a: Action, t: Tid) {
    a.t != t || a.Leave?
  }

  /** The steps of the environment of thread `t`. */
  function Others(t: Tid): Step<State, Action> {
    (s: State, a: Action) => if Enabled(s, a) && OfEnvironment(a, t) then Some(Apply(s, a)) else None
  }

  /** The steps of thread `t` itself. */
  function Mine(t: Tid): Step<State, Action> {
    (s: State, a: Action) => if Enabled(s, a) && !OfEnvironment(a, t) then Some(Apply(s, a)) else None
  }

  /** A run of the model by the environment alone is carried out as it is. */
  lemma EnvironmentRuns(s: State, env: seq<Action>, t: Tid)
    requires Runs(s, env) && forall k :: 0 <= k < |env| ==> OfEnvironment(env[k], t)
    ensures Tried(Others(t), s, env) == Done(After(s, env), env)
  {
    RunCanBeDone(s, env, t);
    TriedIsDone(Others(t), s, env);
  }

  lemma {:induction false} RunCanBeDone(s: State, env: seq<Action>, t: Tid)
    requires Runs(s, env) && forall k :: 0 <= k < |env| ==> OfEnvironment(env[k], t)
    ensures CanDo(Others(t), s, env) && AfterAll(Others(t), s, env) == After(s, env)
    decreases |env|
  {
    if env == [] {
    } else {
      assert forall k :: 0 <= k < |env[1..]| ==> env[1..][k] == env[k + 1];
      RunCanBeDone(Apply(s, env[0]), env[1..], t);
    }
  }

  /** An own action of the call. */
  lemma Acted(c: FutexLog, t: Tid, s: State, h: seq<Action>, a: Action)
    requires IsLog(Mine(t), Others(t), c, s, h) && Enabled(s, a) && !OfEnvironment(a, t)
    ensures IsLog(Mine(t), Others(t), Grown(c, Own(a)), Apply(s, a), h + [a])
    ensures forall env, n: nat :: UpTo(c, env, n) ==> UpTo(Grown(c, Own(a)), env, n)
    ensures Owns(Grown(c, Own(a)).done) == Owns(c.done) + [a]
    ensures InLoop(Owns(c.done)) && (a.Exchange? || a.FutexWait? || a.AfterWait?) ==> GoesOn(Owns(c.done), Owns(c.done) + [a])
  {
    LogAct(Mine(t), Others(t), c, s, h, a);
  }

  lemma LoopBegins(t: Tid, call: Call)
    ensures InLoop([] + [Action.Begin(t, call)] + [Action.CompareExchange(t)])
    ensures ([] + [Action.Begin(t, call)] + [Action.CompareExchange(t)])[0] == Action.Begin(t, call)
  {
  }

  /** The own actions of a locking call: the compare-exchange, and then nothing but the slow path. */
  predicate IsTaking(own: seq<Action>, t: Tid, call: Call) {
    InLoop(own) && own[0] == Action.Begin(t, call)
  }

  predicate InLoop(own: seq<Action>) {
    && |own| >= 2 && own[0].Begin? && own[1].CompareExchange?
    && forall k :: 2 <= k < |own| ==> own[k].Exchange? || own[k].FutexWait? || own[k].AfterWait?
  }

  /** More of the slow path of the same call. */
  predicate GoesOn(own: seq<Action>, more: seq<Action>) {
    InLoop(own) && InLoop(more) && own[0] == more[0]
  }

  function ContendedRelease(t: Tid, env: seq<seq<Action>>): seq<Entry<Action>> {
    [Own(Action.FetchSub(t)), Round(Batch(env, 0)), Own(Action.StoreUnlocked(t)), Round(Batch(env, 1))]
  }

  /** What the environment can do to a thread: nothing, or end its sleep. */
  predicate StaysOrWakes(before: Pc, after: Pc) {
    || after == before
    || (before.Asleep? && after.Back? && after.timed == before.timed && after.held == before.held && (after.code == ETimedOut ==> after.timed))
  }

  /** True only to a caller that did not hold; false only from the `trylock` calls, and it leaves
      the caller where it was. */
  predicate EndsCall(o: Outcome, pc: Pc, mayFail: bool, held: bool) {
    match o
    case Owned => pc == Owner && !held
    case NotOwned => mayFail && pc == Returned(held)
    case Blocked => pc == Asleep(mayFail, held)
  }

  lemma EnvironmentMoves(s: State, holder: Option<Tid>, a: Action, t: Tid)
    requires Inv(s, holder) && Enabled(s, a) && OfEnvironment(a, t)
    ensures |Apply(s, a).pc| == |s.pc|
    ensures t < |s.pc| ==> StaysOrWakes(s.pc[t], Apply(s, a).pc[t])
  {
  }

  /** Removing a member of a queue without duplicates shortens it by one. */
  lemma {:induction false} WithoutLength(q: seq<Tid>, t: Tid)
    requires NoDuplicates(q) && t in q
    ensures |Without(q, t)| == |q| - 1
  {
    if q[0] == t {
      WithoutStranger(q[1..], t);
    } else {
      assert forall i :: 0 <= i < |q[1..]| ==> q[1..][i] == q[i + 1];
      WithoutLength(q[1..], t);
    }
  }

  lemma {:induction false} WithoutStranger(q: seq<Tid>, t: Tid)
    requires t !in q
    ensures Without(q, t) == q
  {
    if q == [] {
    } else {
      WithoutStranger(q[1..], t);
    }
  }
}
