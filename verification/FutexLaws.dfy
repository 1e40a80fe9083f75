// Laws about what single actions and whole runs of the futex may change: the word, the queue, and
// what each kind of action means for its thread.

module FutexLaws {
  import opened Common
  import opened FutexModel
  import opened FutexSafety
  import opened FutexMutex
  import opened FutexCompletion

  // ----- what is left alone

  /** The word is written by four operations only, and the queue by the kernel's three. */
  lemma WordAndQueue(s: State, a: Action)
    requires Enabled(s, a)
    ensures var n := Apply(s, a);
            && (n.value != s.value ==>
                  || (a.CompareExchange? && s.value == 0 && n.value == 1)
                  || (a.Exchange? && n.value == 2)
                  || (a.FetchSub? && n.value == s.value - 1)
                  || (a.StoreUnlocked? && n.value == 0))
            && (n.queue != s.queue ==>
                  || (a.FutexWait? && s.value == 2 && n.queue == s.queue + [a.t])
                  || (a.Leave? && n.queue == Without(s.queue, a.t))
                  || (a.FutexWake? && s.queue != [] && n.queue == Without(s.queue, s.queue[a.k])))
  {
  }

  /** A call that fails, and one that goes on to the slow path, has changed neither. */
  lemma FailureChangesNothing(s: State, a: Action)
    requires Enabled(s, a)
    requires EventOf(s, a).Refused? || EventOf(s, a).TimedOut? || (a.CompareExchange? && EventOf(s, a).Silent?)
    ensures Apply(s, a).value == s.value && Apply(s, a).queue == s.queue
    ensures forall t :: 0 <= t < |s.pc| && t != a.t ==> |Apply(s, a).pc| == |s.pc| && Apply(s, a).pc[t] == s.pc[t]
  {
  }

  // ----- where a 2 comes from

  /** Whether some thread has exchanged since the word was last 0; `so` tells it of the beginning. */
  predicate Exchanged(s: State, acts: seq<Action>, so: bool)
    requires Runs(s, acts)
    decreases |acts|
  {
    if acts == [] then so
    else
      var next := Apply(s, acts[0]);
      Exchanged(next, acts[1..], next.value != 0 && (so || acts[0].Exchange?))
  }

  /** The word is 2, or a release goes by the wake, only after an exchange. */
  lemma {:induction false} TwoWasExchanged(s: State, holder: Option<Tid>, acts: seq<Action>, so: bool)
    requires Inv(s, holder) && Runs(s, acts)
    requires s.value == 2 || (exists t :: 0 <= t < |s.pc| && s.pc[t].Rel?) ==> so
    ensures var n := After(s, acts);
            n.value == 2 || (exists t :: 0 <= t < |n.pc| && n.pc[t].Rel?) ==> Exchanged(s, acts, so)
    decreases |acts|
  {
    if acts == [] {
    } else {
      var next := Apply(s, acts[0]);
      StepInv(s, holder, acts[0]);
      ExchangedStep(s, holder, acts[0], so);
      TwoWasExchanged(next, HolderAfter(s, holder, acts[0]), acts[1..], next.value != 0 && (so || acts[0].Exchange?));
    }
  }

  lemma ExchangedStep(s: State, holder: Option<Tid>, a: Action, so: bool)
    requires Inv(s, holder) && Enabled(s, a) && Inv(Apply(s, a), HolderAfter(s, holder, a))
    requires s.value == 2 || (exists t :: 0 <= t < |s.pc| && s.pc[t].Rel?) ==> so
    ensures var n := Apply(s, a);
            n.value == 2 || (exists t :: 0 <= t < |n.pc| && n.pc[t].Rel?) ==> n.value != 0 && (so || a.Exchange?)
  {
    var n := Apply(s, a);
    if t :| 0 <= t < |n.pc| && n.pc[t].Rel? {
      assert Holds(n.pc[t]);
      if t != a.t {
        assert s.pc[t].Rel?;
      }
    }
  }

  lemma {:induction false} ExchangedMeans(s: State, acts: seq<Action>, so: bool)
    requires Runs(s, acts) && Exchanged(s, acts, so)
    ensures so || exists k :: 0 <= k < |acts| && acts[k].Exchange?
    ensures acts != [] ==> After(s, acts).value != 0
    decreases |acts|
  {
    if acts == [] {
    } else {
      var next := Apply(s, acts[0]);
      var more := next.value != 0 && (so || acts[0].Exchange?);
      ExchangedMeans(next, acts[1..], more);
      if !so && !acts[0].Exchange? {
        var k :| 0 <= k < |acts[1..]| && acts[1..][k].Exchange?;
        assert acts[k + 1].Exchange?;
      }
      if acts[1..] == [] {
        assert more;
      }
    }
  }

  predicate NoExchange(acts: seq<Action>) {
    forall k :: 0 <= k < |acts| ==> !acts[k].Exchange?
  }

  ghost predicate Uncontended(s: State) {
    s.value != 2 && forall t :: 0 <= t < |s.pc| ==> !s.pc[t].Rel? && !s.pc[t].Waker? && !s.pc[t].WaitCall? && !s.pc[t].Asleep?
  }

  lemma UncontendedStep(s: State, holder: Option<Tid>, a: Action)
    requires Inv(s, holder) && Uncontended(s) && Enabled(s, a) && !a.Exchange?
    ensures Uncontended(Apply(s, a)) && !a.FutexWait? && !a.StoreUnlocked? && !a.FutexWake?
  {
    assert Holds(s.pc[a.t]) <==> holder == Some(a.t);
  }

  /** Without an exchange nobody enters the kernel: no wait, no contended release, no wake. */
  lemma {:induction false} UncontendedStaysOut(s: State, holder: Option<Tid>, acts: seq<Action>)
    requires Inv(s, holder) && Uncontended(s) && Runs(s, acts) && NoExchange(acts)
    ensures Uncontended(After(s, acts))
    ensures forall k :: 0 <= k < |acts| ==> !acts[k].FutexWait? && !acts[k].StoreUnlocked? && !acts[k].FutexWake?
    decreases |acts|
  {
    if acts == [] {
    } else {
      assert forall k :: 0 <= k < |acts[1..]| ==> acts[1..][k] == acts[k + 1];
      StepInv(s, holder, acts[0]);
      UncontendedStep(s, holder, acts[0]);
      UncontendedStaysOut(Apply(s, acts[0]), HolderAfter(s, holder, acts[0]), acts[1..]);
      forall k | 0 <= k < |acts|
        ensures !acts[k].FutexWait? && !acts[k].StoreUnlocked? && !acts[k].FutexWake?
      {
        if k > 0 {
          assert acts[k] == acts[1..][k - 1];
        }
      }
    }
  }

  /** So an unlock that was never contended costs one `fetch_sub`: from either constructor. */
  lemma FastPathsSuffice(s: State, holder: Option<Tid>, acts: seq<Action>)
    requires Start(s, holder) && Runs(s, acts) && NoExchange(acts)
    ensures After(s, acts).value in {0, 1}
    ensures forall k :: 0 <= k < |acts| ==> !acts[k].FutexWait? && !acts[k].StoreUnlocked? && !acts[k].FutexWake?
  {
    StartInv(s, holder);
    UncontendedStaysOut(s, holder, acts);
    var last := RunInv(s, holder, acts);
  }

  // ----- what the events mean

  /** The events are what callers see: a call begins, and ends with true in a thread that came to
      own the mutex, with false in one that is where it was; and a thread leaves the mutex. */
  lemma EventsAreSeen(s: State, holder: Option<Tid>, a: Action)
    requires Inv(s, holder) && Enabled(s, a)
    ensures var n, t, e := Apply(s, a), a.t, EventOf(s, a);
            && (!InCall(s.pc[t]) && InCall(n.pc[t]) <==> a.Begin? && e == Called(t, a.call))
            && (InCall(s.pc[t]) && n.pc[t] == Owner && !s.pc[t].held <==> e == Acquired(t))
            && (InCall(s.pc[t]) && !InCall(n.pc[t]) && !(n.pc[t] == Owner && !s.pc[t].held)
                <==> e == Refused(t) || e == TimedOut(t))
            && (e == Refused(t) ==> CallIn(s.pc[t]) == Some(TryLock))
            && (e == TimedOut(t) ==> CallIn(s.pc[t]) == Some(TryLockTimeout))
            && (Holds(s.pc[t]) && !Holds(n.pc[t]) <==> e == Released(t))
            && (e == Silent || e.t == t)
  {
    assert Holds(s.pc[a.t]) <==> holder == Some(a.t);
    if a.FutexWake? {
      WakerIsOut(s, a);
    }
  }

  // ----- lawful histories of the atomic mutex

  /** Between two acquisitions the first owner has released. */
  lemma {:induction false} ReleasedBetween(m: Mutex, es: seq<Event>, t: Tid, j: nat)
    requires Replay(m, es).Some? && m.holder == Some(t) && j < |es| && es[j].Acquired?
    ensures exists k :: 0 <= k < j && es[k] == Released(t)
    decreases |es|
  {
    var next := MutexStep(m, es[0]).value;
    if es[0] == Released(t) {
    } else {
      assert j > 0 && next.holder == Some(t);
      ReleasedBetween(next, es[1..], t, j - 1);
      var k :| 0 <= k < j - 1 && es[1..][k] == Released(t);
      assert es[k + 1] == Released(t);
    }
  }

  lemma {:induction false} OneOwnerAtATime(m: Mutex, es: seq<Event>, i: nat, j: nat)
    requires Replay(m, es).Some? && i < j < |es| && es[i].Acquired? && es[j].Acquired?
    ensures exists k :: i < k < j && es[k] == Released(es[i].t)
    decreases |es|
  {
    var next := MutexStep(m, es[0]).value;
    if i == 0 {
      ReleasedBetween(next, es[1..], es[0].t, j - 1);
      var k :| 0 <= k < j - 1 && es[1..][k] == Released(es[0].t);
      assert es[k + 1] == Released(es[0].t);
    } else {
      OneOwnerAtATime(next, es[1..], i - 1, j - 1);
      var k :| i - 1 < k < j - 1 && es[1..][k] == Released(es[i].t);
      assert es[k + 1] == Released(es[i].t);
    }
  }

  /** A `trylock` is refused only while the mutex is held: somebody acquired it, or held it at the
      beginning, and has not released it since. */
  lemma {:induction false} RefusedWhileHeld(m: Mutex, es: seq<Event>, j: nat)
    requires Replay(m, es).Some? && j < |es| && es[j].Refused?
    ensures exists t: Tid ::
              || (m.holder == Some(t) && forall k :: 0 <= k < j ==> es[k] != Released(t))
              || (exists i :: 0 <= i < j && es[i] == Acquired(t) && forall k :: i < k < j ==> es[k] != Released(t))
    decreases |es|
  {
    var next := MutexStep(m, es[0]).value;
    if j == 0 {
      assert m.holder.Some?;
    } else {
      RefusedWhileHeld(next, es[1..], j - 1);
      var t: Tid :|
        || (next.holder == Some(t) && forall k :: 0 <= k < j - 1 ==> es[1..][k] != Released(t))
        || (exists i :: 0 <= i < j - 1 && es[1..][i] == Acquired(t) && forall k :: i < k < j - 1 ==> es[1..][k] != Released(t));
      HeldEarlier(m, es, j, t);
    }
  }

  lemma HeldEarlier(m: Mutex, es: seq<Event>, j: nat, t: Tid)
    requires 0 < j < |es| && MutexStep(m, es[0]).Some?
    requires var next := MutexStep(m, es[0]).value;
             || (next.holder == Some(t) && forall k :: 0 <= k < j - 1 ==> es[1..][k] != Released(t))
             || (exists i :: 0 <= i < j - 1 && es[1..][i] == Acquired(t) && forall k :: i < k < j - 1 ==> es[1..][k] != Released(t))
    ensures || (m.holder == Some(t) && forall k :: 0 <= k < j ==> es[k] != Released(t))
            || (exists i :: 0 <= i < j && es[i] == Acquired(t) && forall k :: i < k < j ==> es[k] != Released(t))
  {
    var next := MutexStep(m, es[0]).value;
    if next.holder == Some(t) && forall k :: 0 <= k < j - 1 ==> es[1..][k] != Released(t) {
      assert forall k :: 0 < k < j ==> es[k] == es[1..][k - 1];
      if m.holder != Some(t) {
        assert es[0] == Acquired(t);
      }
    } else {
      var i :| 0 <= i < j - 1 && es[1..][i] == Acquired(t) && forall k :: i < k < j - 1 ==> es[1..][k] != Released(t);
      assert es[i + 1] == Acquired(t);
      assert forall k :: i + 1 < k < j ==> es[k] == es[1..][k - 1];
    }
  }

  // ----- taking care

  /** A thread that is bound to take care of the sleepers does so: before it can wait, return or
      own the mutex it exchanges, or wakes. */
  lemma {:induction false} CareIsTaken(s: State, holder: Option<Tid>, acts: seq<Action>, t: Tid)
    requires Inv(s, holder) && Runs(s, acts) && t < |s.pc| && WillTakeCare(s.pc[t])
    ensures t < |After(s, acts).pc|
    ensures WillTakeCare(After(s, acts).pc[t])
            || exists k :: 0 <= k < |acts| && acts[k].t == t && (acts[k].Exchange? || acts[k].FutexWake?)
    decreases |acts|
  {
    if acts == [] {
    } else {
      var a, next := acts[0], Apply(s, acts[0]);
      CareStep(s, a, t);
      if a.t == t && (a.Exchange? || a.FutexWake?) {
        StepInv(s, holder, a);
        ThreadsKept(s, acts);
      } else {
        StepInv(s, holder, a);
        CareIsTaken(next, HolderAfter(s, holder, a), acts[1..], t);
        if k :| 0 <= k < |acts[1..]| && acts[1..][k].t == t && (acts[1..][k].Exchange? || acts[1..][k].FutexWake?) {
          assert acts[k + 1] == acts[1..][k];
        }
      }
    }
  }

  lemma CareStep(s: State, a: Action, t: Tid)
    requires QueueMatches(s) && Enabled(s, a) && t < |s.pc| && WillTakeCare(s.pc[t])
    ensures t < |Apply(s, a).pc|
    ensures WillTakeCare(Apply(s, a).pc[t]) || (a.t == t && (a.Exchange? || a.FutexWake?))
  {
  }

  lemma {:induction false} ThreadsKept(s: State, acts: seq<Action>)
    requires Runs(s, acts)
    ensures |After(s, acts).pc| == |s.pc|
    decreases |acts|
  {
    if acts == [] {
    } else {
      ThreadsKept(Apply(s, acts[0]), acts[1..]);
    }
  }

  // ----- the first exchange of the slow path

  /** What a thread does after a compare-exchange that sends it to the slow path: it waits at once
      if it found 2, and exchanges first if it found 1. */
  lemma SlowPathBegins(s: State, t: Tid, acts: seq<Action>)
    requires Enabled(s, CompareExchange(t)) && s.value in {1, 2} && s.pc[t].call != TryLock
    requires Runs(Apply(s, CompareExchange(t)), acts)
    ensures var own := OwnActions(acts, t);
            own != [] ==> own[0] == if s.value == 2 then FutexWait(t) else Exchange(t)
  {
    if s.value == 2 {
      NextIsWait(Apply(s, CompareExchange(t)), t, acts);
    } else {
      NextIsExchange(Apply(s, CompareExchange(t)), t, acts);
    }
  }

  lemma {:induction false} NextIsWait(s: State, t: Tid, acts: seq<Action>)
    requires Runs(s, acts) && t < |s.pc| && s.pc[t].WaitCall?
    ensures var own := OwnActions(acts, t); own != [] ==> own[0] == FutexWait(t)
    decreases |acts|
  {
    if acts == [] || acts[0].t == t {
    } else {
      OthersLeaveAlone(s, acts[0], t);
      NextIsWait(Apply(s, acts[0]), t, acts[1..]);
    }
  }

  /** The run of the test, in which a holder is timed out, has a quiet kernel: the completion bound
      speaks of it. */
  lemma RetryIsQuiet(k: nat)
    ensures Quiet(RetryAction(k))
    ensures !Quiet(Leave(k, EIntr)) && !Quiet(Leave(k, Zero))
  {
  }
}
