// The futex refines an abstract mutex, and timed waits never swallow a wake.

module FutexMutex {
  import opened Common
  import opened FutexModel
  import opened FutexSafety

  /** The specification: an optional holder, and the call each thread is waiting in. */
  datatype Mutex = Mutex(holder: Option<Tid>, trying: seq<Option<Call>>)

  datatype Event =
    | Silent
    | Called(t: Tid, call: Call)
    | Acquired(t: Tid)     // lock, trylock or trylock_timeout returns, holding the mutex
    | Refused(t: Tid)      // trylock returns false
    | TimedOut(t: Tid)     // trylock_timeout returns false
    | Released(t: Tid)

  /** What the atomic mutex does at an event, if the event is lawful. */
  function MutexStep(m: Mutex, e: Event): Option<Mutex> {
    if e.Silent? then Some(m)
    else if e.t >= |m.trying| then None
    else
      var quit := m.(trying := m.trying[e.t := None]);
      match e
      case Silent => Some(m)
      case Called(t, call) =>
        if m.trying[t] == None then Some(m.(trying := m.trying[t := Some(call)])) else None
      case Acquired(t) =>
        if m.trying[t].Some? && m.holder == None then Some(quit.(holder := Some(t))) else None
      case Refused(t) =>
        if m.trying[t] == Some(TryLock) && m.holder.Some? then Some(quit) else None
      case TimedOut(t) =>
        if m.trying[t] == Some(TryLockTimeout) then Some(quit) else None
      case Released(t) =>
        if m.holder == Some(t) && m.trying[t] == None then Some(m.(holder := None)) else None
  }

  function Replay(m: Mutex, es: seq<Event>): Option<Mutex>
    decreases |es|
  {
    if es == [] then Some(m)
    else match MutexStep(m, es[0])
         case None => None
         case Some(next) => Replay(next, es[1..])
  }

  /** What the code lets its caller see at one action: calls, results, and the unlocking write. */
  function EventOf(s: State, a: Action): Event
    requires Enabled(s, a)
  {
    match a
    case Begin(t, call) => Called(t, call)
    case CompareExchange(t) =>
      if s.value == UNLOCKED then Acquired(t) else if s.pc[t].call == TryLock then Refused(t) else Silent
    case Exchange(t) => if s.value == UNLOCKED then Acquired(t) else Silent
    case AfterWait(t) => if s.pc[t].code == ETimedOut then TimedOut(t) else Silent
    case FetchSub(t) => if s.value == LOCKED_WAITERS then Silent else Released(t)
    case StoreUnlocked(t) => Released(t)
    case FutexWait(_) => Silent
    case Leave(_, _) => Silent
    case FutexWake(_, _) => Silent
  }

  function Trace(s: State, acts: seq<Action>): seq<Event>
    requires Runs(s, acts)
    decreases |acts|
  {
    if acts == [] then [] else [EventOf(s, acts[0])] + Trace(Apply(s, acts[0]), acts[1..])
  }

  function CallIn(pc: Pc): Option<Call> {
    match pc
    case Cas(call, _) => Some(call)
    case Xchg(timed, _) => Some(if timed then TryLockTimeout else Lock)
    case WaitCall(timed, _) => Some(if timed then TryLockTimeout else Lock)
    case Asleep(timed, _) => Some(if timed then TryLockTimeout else Lock)
    case Back(timed, _, _) => Some(if timed then TryLockTimeout else Lock)
    case Idle => None
    case Owner => None
    case Rel => None
    case Waker => None
  }

  ghost predicate CallsMatch(s: State, m: Mutex) {
    && |m.trying| == |s.pc|
    && forall t :: 0 <= t < |s.pc| ==> m.trying[t] == CallIn(s.pc[t])
  }

  ghost predicate Simulates(s: State, m: Mutex) {
    Inv(s, m.holder) && CallsMatch(s, m)
  }

  lemma StepLawful(s: State, m: Mutex, a: Action)
    requires Simulates(s, m) && Enabled(s, a)
    ensures var next := MutexStep(m, EventOf(s, a));
            next.Some? && next.value.holder == HolderAfter(s, m.holder, a)
  {
    assert m.trying[a.t] == CallIn(s.pc[a.t]);
    assert Holds(s.pc[a.t]) <==> m.holder == Some(a.t);
    if a.FutexWake? {
      WakerIsOut(s, a);
    }
  }

  lemma WakerIsOut(s: State, a: Action)
    requires QueueMatches(s) && Enabled(s, a) && a.FutexWake?
    ensures Apply(s, a).pc[a.t] == Idle
  {
    if s.queue != [] {
      assert s.queue[a.k] in s.queue;
    }
  }

  lemma StepCalls(s: State, m: Mutex, a: Action)
    requires QueueMatches(s) && CallsMatch(s, m) && Enabled(s, a)
    requires s.pc[a.t].Back? && s.pc[a.t].code == ETimedOut ==> s.pc[a.t].timed
    ensures var next := MutexStep(m, EventOf(s, a));
            next.Some? ==> CallsMatch(Apply(s, a), next.value)
  {
    assert m.trying[a.t] == CallIn(s.pc[a.t]);
    OthersKeepCalls(s, a);
  }

  /** A thread that does not act stays in its call, even when it is woken. */
  lemma OthersKeepCalls(s: State, a: Action)
    requires QueueMatches(s) && Enabled(s, a)
    ensures |Apply(s, a).pc| == |s.pc|
    ensures forall t :: 0 <= t < |s.pc| && t != a.t ==> CallIn(Apply(s, a).pc[t]) == CallIn(s.pc[t])
  {
    if a.FutexWake? && s.queue != [] {
      assert s.queue[a.k] in s.queue;
    }
  }

  lemma StepRefines(s: State, m: Mutex, a: Action)
    requires Simulates(s, m) && Enabled(s, a)
    ensures var next := MutexStep(m, EventOf(s, a));
            next.Some? && Simulates(Apply(s, a), next.value)
  {
    StepLawful(s, m, a);
    StepCalls(s, m, a);
    StepInv(s, m.holder, a);
  }

  /** Every run, with any mix of calls, is a lawful history of the atomic mutex. */
  lemma {:induction false} RunRefines(s: State, m: Mutex, acts: seq<Action>)
    requires Simulates(s, m) && Runs(s, acts)
    ensures var last := Replay(m, Trace(s, acts));
            last.Some? && Simulates(After(s, acts), last.value)
    decreases |acts|
  {
    if acts == [] {
    } else {
      StepRefines(s, m, acts[0]);
      RunRefines(Apply(s, acts[0]), MutexStep(m, EventOf(s, acts[0])).value, acts[1..]);
      assert Trace(s, acts)[1..] == Trace(Apply(s, acts[0]), acts[1..]);
    }
  }

  function NoCalls(n: nat): seq<Option<Call>> {
    seq(n, _ => None)
  }

  /** Both constructors start a refinement. */
  lemma FutexRefinesMutex(s: State, holder: Option<Tid>, acts: seq<Action>)
    requires Start(s, holder) && Runs(s, acts)
    ensures var last := Replay(Mutex(holder, NoCalls(|s.pc|)), Trace(s, acts));
            last.Some? && HolderMatches(After(s, acts), last.value.holder)
  {
    StartInv(s, holder);
    RunRefines(s, Mutex(holder, NoCalls(|s.pc|)), acts);
  }

  // ----- timed waits

  /** The actions of a run that thread `t` takes itself, or that end its own wait. */
  function OwnActions(acts: seq<Action>, t: Tid): seq<Action>
    decreases |acts|
  {
    if acts == [] then []
    else (if acts[0].t == t then [acts[0]] else []) + OwnActions(acts[1..], t)
  }

  lemma {:induction false} OwnActionsAreAll(acts: seq<Action>, t: Tid)
    ensures |OwnActions(acts, t)| == Count((a: Action) => a.t == t, acts)
    ensures forall a :: a in OwnActions(acts, t) <==> a in acts && a.t == t
    decreases |acts|
  {
    if acts == [] {
    } else {
      OwnActionsAreAll(acts[1..], t);
      assert acts == [acts[0]] + acts[1..];
    }
  }

  /** Another thread's action moves a thread only by waking it. */
  lemma OthersLeaveAlone(s: State, a: Action, t: Tid)
    requires Enabled(s, a) && t < |s.pc| && a.t != t && !s.pc[t].Asleep?
    ensures |Apply(s, a).pc| == |s.pc| && Apply(s, a).pc[t] == s.pc[t]
  {
  }

  lemma {:induction false} NextIsExchange(s: State, t: Tid, acts: seq<Action>)
    requires Runs(s, acts) && t < |s.pc| && s.pc[t].Xchg?
    ensures var own := OwnActions(acts, t); own != [] ==> own[0] == Exchange(t)
    decreases |acts|
  {
    if acts != [] && acts[0].t != t {
      OthersLeaveAlone(s, acts[0], t);
      NextIsExchange(Apply(s, acts[0]), t, acts[1..]);
    }
  }

  lemma {:induction false} NextAfterZero(s: State, t: Tid, acts: seq<Action>)
    requires Runs(s, acts) && t < |s.pc| && s.pc[t].Back? && s.pc[t].code == Zero
    ensures var own := OwnActions(acts, t);
            && (|own| > 0 ==> own[0] == AfterWait(t))
            && (|own| > 1 ==> own[1] == Exchange(t))
    decreases |acts|
  {
    if acts == [] {
    } else {
      if acts[0].t != t {
        OthersLeaveAlone(s, acts[0], t);
        NextAfterZero(Apply(s, acts[0]), t, acts[1..]);
      } else {
        NextIsExchange(Apply(s, acts[0]), t, acts[1..]);
      }
    }
  }

  /** Whatever happens after a wake, the woken waiter's next operation on the word is the
      exchange; it does not report a timeout, even when its call is a timed one. */
  lemma WokenWaiterExchanges(s: State, holder: Option<Tid>, wake: Action, acts: seq<Action>)
    requires Inv(s, holder) && wake.FutexWake? && s.queue != [] && Enabled(s, wake)
    requires Runs(Apply(s, wake), acts)
    ensures var u := s.queue[wake.k];
            var own := OwnActions(acts, u);
            && u !in Apply(s, wake).queue
            && (|own| > 0 ==> own[0] == AfterWait(u))
            && (|own| > 1 ==> own[1] == Exchange(u))
  {
    var u := s.queue[wake.k];
    assert u in s.queue;
    WithoutMembers(s.queue, u);
    NextAfterZero(Apply(s, wake), u, acts);
  }

  // ----- results

  /** Nobody but the holder of the spec holds. */
  lemma OnlyHolder(s: State, holder: Option<Tid>)
    requires HolderMatches(s, holder)
    ensures forall t, u :: 0 <= t < |s.pc| && 0 <= u < |s.pc| && Holds(s.pc[t]) && Holds(s.pc[u]) ==> t == u
    ensures s.value != UNLOCKED ==> exists u :: 0 <= u < |s.pc| && Holds(s.pc[u])
    ensures s.value == UNLOCKED ==> forall u :: 0 <= u < |s.pc| ==> !Holds(s.pc[u])
  {
    if s.value != UNLOCKED {
      assert Holds(s.pc[holder.value]);
    }
  }

  /** What a result says about the caller. */
  lemma StepResult(s: State, holder: Option<Tid>, a: Action)
    requires HolderMatches(s, holder) && Enabled(s, a)
    ensures var next := Apply(s, a);
            match EventOf(s, a)
            case Acquired(t) => t == a.t && InCall(s.pc[t]) && !s.pc[t].held && next.pc[t] == Owner
            case Refused(t) =>
              t == a.t && InCall(s.pc[t]) && next.pc[t] == Returned(s.pc[t].held) && next.value != UNLOCKED
            case TimedOut(t) => t == a.t && InCall(s.pc[t]) && next.pc[t] == Returned(s.pc[t].held)
            case Released(t) => t == a.t && s.pc[t] in {Owner, Rel}
            case _ => true
  {
    assert Holds(s.pc[a.t]) <==> holder == Some(a.t);
  }

  lemma ReleaseFrees(s: State, holder: Option<Tid>, a: Action)
    requires Inv(s, holder) && Enabled(s, a) && EventOf(s, a).Released?
    ensures Apply(s, a).value == UNLOCKED
  {
    assert Holds(s.pc[a.t]) <==> holder == Some(a.t);
  }

  /** True is returned only to a caller that did not hold, and then is the only holder. False
      leaves the caller out of the kernel's queue, and holding exactly if it held at the call;
      `trylock` returns false only while the mutex is held. */
  lemma ResultsTellTheTruth(s: State, holder: Option<Tid>, acts: seq<Action>, a: Action)
    requires Start(s, holder) && Runs(s, acts) && Enabled(After(s, acts), a)
    ensures var before := After(s, acts);
            var next := Apply(before, a);
            match EventOf(before, a)
            case Acquired(t) =>
              && t == a.t && !before.pc[t].held && next.pc[t] == Owner && t !in next.queue
              && forall u :: 0 <= u < |next.pc| && Holds(next.pc[u]) ==> u == t
            case Refused(t) =>
              && t == a.t && next.pc[t] == Returned(before.pc[t].held) && t !in next.queue
              && exists u :: 0 <= u < |next.pc| && Holds(next.pc[u])
            case TimedOut(t) => t == a.t && next.pc[t] == Returned(before.pc[t].held) && t !in next.queue
            case Released(t) => t == a.t && forall u :: 0 <= u < |next.pc| ==> !Holds(next.pc[u])
            case _ => true
  {
    StartInv(s, holder);
    var h := RunInv(s, holder, acts);
    StepInv(After(s, acts), h, a);
    StepResult(After(s, acts), h, a);
    if EventOf(After(s, acts), a).Released? {
      ReleaseFrees(After(s, acts), h, a);
    }
    OnlyHolder(Apply(After(s, acts), a), HolderAfter(After(s, acts), h, a));
  }

  predicate NoCallOf(t: Tid, acts: seq<Action>) {
    forall k :: 0 <= k < |acts| ==> !(acts[k].Begin? && acts[k].t == t)
  }

  lemma HeldKept(s: State, a: Action, t: Tid)
    requires Enabled(s, a) && t < |s.pc| && !(a.Begin? && a.t == t)
    ensures |Apply(s, a).pc| == |s.pc|
    ensures InCall(Apply(s, a).pc[t]) ==> InCall(s.pc[t]) && Apply(s, a).pc[t].held == s.pc[t].held
  {
  }

  /** A call knows to its end whether its caller held the mutex. */
  lemma {:induction false} HeldSinceCall(s: State, acts: seq<Action>, t: Tid, held: bool)
    requires Runs(s, acts) && t < |s.pc| && NoCallOf(t, acts)
    requires InCall(s.pc[t]) ==> s.pc[t].held == held
    ensures t < |After(s, acts).pc|
    ensures InCall(After(s, acts).pc[t]) ==> After(s, acts).pc[t].held == held
    decreases |acts|
  {
    if acts == [] {
    } else {
      HeldKept(s, acts[0], t);
      assert forall k :: 0 <= k < |acts[1..]| ==> acts[1..][k] == acts[k + 1];
      HeldSinceCall(Apply(s, acts[0]), acts[1..], t, held);
    }
  }

  /** The rest of a call whose caller held the mutex exactly if `held`, to its result. */
  lemma CallEnds(s: State, holder: Option<Tid>, t: Tid, held: bool, acts: seq<Action>, a: Action)
    requires Inv(s, holder) && Runs(s, acts) && Enabled(After(s, acts), a)
    requires t < |s.pc| && NoCallOf(t, acts) && InCall(s.pc[t]) && s.pc[t].held == held
    ensures var last := After(s, acts);
            var next := Apply(last, a);
            && t < |next.pc|
            && (EventOf(last, a) == Acquired(t) ==> !held && Holds(next.pc[t]))
            && (EventOf(last, a) == Refused(t) || EventOf(last, a) == TimedOut(t) ==> (Holds(next.pc[t]) <==> held))
  {
    HeldSinceCall(s, acts, t, held);
    var h := RunInv(s, holder, acts);
    StepResult(After(s, acts), h, a);
  }

  /** Over a whole call of thread t, from its beginning after `acts` through `during` to its result:
      a result of false leaves the caller holding if and only if it held at the call, and the
      result is true only if it did not. */
  lemma FalseMeansUnchanged(s: State, holder: Option<Tid>, acts: seq<Action>, t: Tid, call: Call, during: seq<Action>, a: Action)
    requires Start(s, holder) && Runs(s, acts) && Enabled(After(s, acts), Begin(t, call))
    requires Runs(Apply(After(s, acts), Begin(t, call)), during) && NoCallOf(t, during)
    requires Enabled(After(Apply(After(s, acts), Begin(t, call)), during), a)
    ensures var before := After(s, acts);
            var last := After(Apply(before, Begin(t, call)), during);
            var next := Apply(last, a);
            && t < |next.pc|
            && (EventOf(last, a) == Acquired(t) ==> !Holds(before.pc[t]) && Holds(next.pc[t]))
            && (EventOf(last, a) == Refused(t) || EventOf(last, a) == TimedOut(t) ==>
                  (Holds(next.pc[t]) <==> Holds(before.pc[t])))
  {
    var before := After(s, acts);
    StartInv(s, holder);
    var h := RunInv(s, holder, acts);
    StepInv(before, h, Begin(t, call));
    CallEnds(Apply(before, Begin(t, call)), HolderAfter(before, h, Begin(t, call)), t, Holds(before.pc[t]), during, a);
  }

  // ----- a holder that tries again

  /** One thread takes the mutex by `trylock_timeout`, tries again while holding, is timed out,
      and unlocks. */
  function RetryAction(k: nat): Action {
    if k == 0 then Begin(0, TryLockTimeout)
    else if k == 1 then CompareExchange(0)
    else if k == 2 then Begin(0, TryLockTimeout)
    else if k == 3 then CompareExchange(0)
    else if k == 4 then Exchange(0)
    else if k == 5 then FutexWait(0)
    else if k == 6 then Leave(0, ETimedOut)
    else if k == 7 then AfterWait(0)
    else if k == 8 then FetchSub(0)
    else if k == 9 then StoreUnlocked(0)
    else FutexWake(0, 0)
  }

  /** The state of that run before its k-th action. */
  function RetryState(k: nat): State {
    if k == 0 then State(0, [], [Idle])
    else if k == 1 then State(0, [], [Cas(TryLockTimeout, false)])
    else if k == 2 then State(1, [], [Owner])
    else if k == 3 then State(1, [], [Cas(TryLockTimeout, true)])
    else if k == 4 then State(1, [], [Xchg(true, true)])
    else if k == 5 then State(2, [], [WaitCall(true, true)])
    else if k == 6 then State(2, [0], [Asleep(true, true)])
    else if k == 7 then State(2, [], [Back(true, ETimedOut, true)])
    else if k == 8 then State(2, [], [Owner])
    else if k == 9 then State(1, [], [Rel])
    else if k == 10 then State(0, [], [Waker])
    else State(0, [], [Idle])
  }

  function RetryEvent(k: nat): Event {
    if k == 0 || k == 2 then Called(0, TryLockTimeout)
    else if k == 1 then Acquired(0)
    else if k == 7 then TimedOut(0)
    else if k == 9 then Released(0)
    else Silent
  }

  lemma RetryStep(k: nat)
    requires k < 11
    ensures Enabled(RetryState(k), RetryAction(k))
    ensures Apply(RetryState(k), RetryAction(k)) == RetryState(k + 1)
    ensures EventOf(RetryState(k), RetryAction(k)) == RetryEvent(k)
  {
    assert |RetryState(k).pc| == 1;
    assert Without([0], 0) == [];
  }

  function RetryEvents(k: nat): seq<Event>
    requires k <= 11
    decreases 11 - k
  {
    if k == 11 then [] else [RetryEvent(k)] + RetryEvents(k + 1)
  }

  lemma {:induction false} RetryEventAt(k: nat, j: nat)
    requires k <= j < 11
    ensures |RetryEvents(k)| == 11 - k && RetryEvents(k)[j - k] == RetryEvent(j)
    decreases 11 - k
  {
    assert RetryEvents(k)[1..] == RetryEvents(k + 1);
    if k == j {
      RetryCount(k);
    } else {
      RetryEventAt(k + 1, j);
      assert RetryEvents(k)[j - k] == RetryEvents(k + 1)[j - (k + 1)];
    }
  }

  lemma {:induction false} RetryCount(k: nat)
    requires k <= 11
    ensures |RetryEvents(k)| == 11 - k
    decreases 11 - k
  {
    if k == 11 {
    } else {
      RetryCount(k + 1);
    }
  }

  lemma {:induction false} RetryTail(k: nat) returns (acts: seq<Action>)
    requires k <= 11
    ensures Runs(RetryState(k), acts) && After(RetryState(k), acts) == RetryState(11)
    ensures Trace(RetryState(k), acts) == RetryEvents(k)
    decreases 11 - k
  {
    if k == 11 {
      acts := [];
    } else {
      RetryStep(k);
      var rest := RetryTail(k + 1);
      acts := [RetryAction(k)] + rest;
      assert acts[1..] == rest;
    }
  }

  /** The run exists: its first call returns true, its second returns false to the holder, who
      then unlocks; at the end the futex is as constructed. */
  lemma HolderIsTimedOut() returns (acts: seq<Action>)
    ensures Runs(Init(1), acts) && After(Init(1), acts) == Init(1)
    ensures |Trace(Init(1), acts)| == 11
    ensures forall k :: 0 <= k < 11 ==> Trace(Init(1), acts)[k] == RetryEvent(k)
  {
    assert Init(1).pc == [Idle];
    acts := RetryTail(0);
    forall k | 0 <= k < 11
      ensures |RetryEvents(0)| == 11 && RetryEvents(0)[k] == RetryEvent(k)
    {
      RetryEventAt(0, k);
    }
    RetryCount(0);
  }
}
