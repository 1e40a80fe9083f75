// Mutual exclusion through the release window, and no lost wake-up, over every run.

module FutexSafety {
  import opened Common
  import opened FutexModel

  /** Inside the mutex: from taking it until the word is back at 0, calls in between included. */
  predicate Holds(pc: Pc) {
    pc.Owner? || pc.Rel? || (InCall(pc) && pc.held)
  }

  /** A thread that is bound to write 2 or to wake a waiter before it can block or leave. */
  predicate WillTakeCare(pc: Pc) {
    pc.Rel? || pc.Waker? || pc.Xchg? || (pc.Back? && pc.code != ETimedOut)
  }

  ghost predicate CaredFor(s: State) {
    exists t :: 0 <= t < |s.pc| && WillTakeCare(s.pc[t])
  }

  predicate NoDuplicates(q: seq<Tid>) {
    forall i, j :: 0 <= i < j < |q| ==> q[i] != q[j]
  }

  ghost predicate QueueMatches(s: State) {
    && NoDuplicates(s.queue)
    && (forall t :: t in s.queue ==> t < |s.pc|)
    && (forall t :: 0 <= t < |s.pc| ==> (t in s.queue <==> s.pc[t].Asleep?))
  }

  ghost predicate HolderMatches(s: State, holder: Option<Tid>) {
    && (holder.Some? ==> holder.value < |s.pc|)
    && (forall t :: 0 <= t < |s.pc| ==> (Holds(s.pc[t]) <==> holder == Some(t)))
    && (s.value == UNLOCKED <==> holder == None)
  }

  /** What every step keeps; `holder` is the state of the mutex the futex implements. */
  ghost predicate Inv(s: State, holder: Option<Tid>) {
    && s.value in {UNLOCKED, LOCKED_NOWAITERS, LOCKED_WAITERS}
    && HolderMatches(s, holder)
    && QueueMatches(s)
    && (s.queue != [] ==> s.value == LOCKED_WAITERS || CaredFor(s))
    && TimeoutsFit(s)
  }

  /** The holder after one action: taken by CAS or exchange, given up when the word becomes 0. */
  function HolderAfter(s: State, holder: Option<Tid>, a: Action): Option<Tid>
    requires Enabled(s, a)
  {
    var next := Apply(s, a);
    if Holds(next.pc[a.t]) then Some(a.t)
    else if Holds(s.pc[a.t]) then None
    else holder
  }

  lemma {:induction false} WithoutKeepsOrder(q: seq<Tid>, t: Tid)
    requires NoDuplicates(q)
    ensures NoDuplicates(Without(q, t))
  {
    if q == [] {
    } else {
      assert forall i :: 0 <= i < |q[1..]| ==> q[1..][i] == q[i + 1];
      WithoutKeepsOrder(q[1..], t);
      WithoutMembers(q[1..], t);
      assert q[0] !in q[1..];
    }
  }

  /** A thread that does not act is inside the mutex as before, even when it is woken. */
  lemma OthersHold(s: State, a: Action)
    requires Enabled(s, a) && QueueMatches(s)
    ensures |Apply(s, a).pc| == |s.pc|
    ensures forall t :: 0 <= t < |s.pc| && t != a.t ==> (Holds(Apply(s, a).pc[t]) <==> Holds(s.pc[t]))
  {
    if a.FutexWake? && s.queue != [] {
      assert s.queue[a.k] in s.queue;
    }
  }

  lemma StepHolder(s: State, holder: Option<Tid>, a: Action)
    requires HolderMatches(s, holder) && Enabled(s, a) && QueueMatches(s)
    requires s.value in {UNLOCKED, LOCKED_NOWAITERS, LOCKED_WAITERS}
    ensures HolderMatches(Apply(s, a), HolderAfter(s, holder, a))
    ensures Apply(s, a).value in {UNLOCKED, LOCKED_NOWAITERS, LOCKED_WAITERS}
  {
    OthersHold(s, a);
    assert Holds(s.pc[a.t]) <==> holder == Some(a.t);
  }

  lemma StepQueue(s: State, a: Action)
    requires QueueMatches(s) && Enabled(s, a)
    ensures QueueMatches(Apply(s, a))
  {
    if a.Leave? {
      WithoutMembers(s.queue, a.t);
      WithoutKeepsOrder(s.queue, a.t);
    } else if a.FutexWake? && s.queue != [] {
      assert s.queue[a.k] in s.queue;
      WithoutMembers(s.queue, s.queue[a.k]);
      WithoutKeepsOrder(s.queue, s.queue[a.k]);
    } else if a.FutexWait? && s.value == LOCKED_WAITERS {
      assert a.t !in s.queue;
    }
  }

  lemma StepCare(s: State, holder: Option<Tid>, a: Action)
    requires Inv(s, holder) && Enabled(s, a)
    ensures var n := Apply(s, a); n.queue != [] ==> n.value == LOCKED_WAITERS || CaredFor(n)
  {
    var n := Apply(s, a);
    if n.queue != [] && n.value != LOCKED_WAITERS {
      if a.FutexWake? && s.queue != [] {
        assert s.queue[a.k] in s.queue;
        assert WillTakeCare(n.pc[s.queue[a.k]]);
      } else if s.value == LOCKED_WAITERS {
        assert WillTakeCare(n.pc[a.t]);
      } else if s.queue != [] {
        var u :| 0 <= u < |s.pc| && WillTakeCare(s.pc[u]);
        assert WillTakeCare(n.pc[u]);
      }
    }
  }

  /** Only a timed wait times out. */
  ghost predicate TimeoutsFit(s: State) {
    forall t :: 0 <= t < |s.pc| && s.pc[t].Back? && s.pc[t].code == ETimedOut ==> s.pc[t].timed
  }

  lemma StepTimeouts(s: State, a: Action)
    requires TimeoutsFit(s) && Enabled(s, a)
    ensures TimeoutsFit(Apply(s, a))
  {
  }

  lemma StepInv(s: State, holder: Option<Tid>, a: Action)
    requires Inv(s, holder) && Enabled(s, a)
    ensures Inv(Apply(s, a), HolderAfter(s, holder, a))
  {
    StepHolder(s, holder, a);
    StepQueue(s, a);
    StepCare(s, holder, a);
    StepTimeouts(s, a);
  }

  /** Where a run may begin: either constructor of the futex, any number of threads. */
  ghost predicate Start(s: State, holder: Option<Tid>) {
    || (holder == None && s == Init(|s.pc|))
    || (holder.Some? && holder.value < |s.pc| && s == InitLocked(|s.pc|, holder.value))
  }

  lemma StartInv(s: State, holder: Option<Tid>)
    requires Start(s, holder)
    ensures Inv(s, holder)
  {
  }

  /** Some holder explains every state of every run. */
  lemma {:induction false} RunInv(s: State, holder: Option<Tid>, acts: seq<Action>) returns (last: Option<Tid>)
    requires Inv(s, holder) && Runs(s, acts)
    ensures Inv(After(s, acts), last)
    decreases |acts|
  {
    if acts == [] {
      last := holder;
    } else {
      StepInv(s, holder, acts[0]);
      last := RunInv(Apply(s, acts[0]), HolderAfter(s, holder, acts[0]), acts[1..]);
    }
  }

  /** In every reachable state at most one thread is between taking and freeing the mutex,
      the word is 0 exactly when none is, and the holder's `fetch_sub` cannot underflow. */
  lemma MutualExclusion(s: State, holder: Option<Tid>, acts: seq<Action>)
    requires Start(s, holder) && Runs(s, acts)
    ensures var n := After(s, acts);
            && n.value in {UNLOCKED, LOCKED_NOWAITERS, LOCKED_WAITERS}
            && (forall t, u :: 0 <= t < |n.pc| && 0 <= u < |n.pc| && Holds(n.pc[t]) && Holds(n.pc[u]) ==> t == u)
            && (n.value == UNLOCKED <==> forall t :: 0 <= t < |n.pc| ==> !Holds(n.pc[t]))
            && (forall t: Tid :: Enabled(n, FetchSub(t)) ==> Apply(n, FetchSub(t)).value >= UNLOCKED)
            && (forall t: Tid :: Enabled(n, StoreUnlocked(t)) ==> n.value != UNLOCKED)
  {
    StartInv(s, holder);
    var last := RunInv(s, holder, acts);
    var n := After(s, acts);
    if last.Some? {
      assert Holds(n.pc[last.value]);
    }
  }

  /** Nobody sleeps unattended: while the queue is not empty, either the word is 2 and some
      thread holds the mutex, or some thread is on its way to write 2 or to wake a waiter. */
  lemma NoLostWakeup(s: State, holder: Option<Tid>, acts: seq<Action>)
    requires Start(s, holder) && Runs(s, acts)
    ensures var n := After(s, acts);
            n.queue != [] ==>
              || (n.value == LOCKED_WAITERS && exists t :: 0 <= t < |n.pc| && Holds(n.pc[t]))
              || CaredFor(n)
  {
    StartInv(s, holder);
    var last := RunInv(s, holder, acts);
    var n := After(s, acts);
    if last.Some? {
      assert Holds(n.pc[last.value]);
    }
  }
}
