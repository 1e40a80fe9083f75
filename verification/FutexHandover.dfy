// Handover of data: which writes of earlier holders an acquirer is guaranteed to see.
// Every write of the futex word carries the views of the release operations in whose
// release sequence it lies; an acquiring read joins them.

module FutexHandover {
  import opened Common
  import opened FutexModel
  import opened FutexSafety

  /** The rule for a plain store by the thread that headed a release sequence: section 4.7.1
      of ISO C++17 keeps the sequence going, C++20 ends it. */
  datatype Rule = Cpp17 | Cpp20

  /** Writes made inside the lock are numbered; a view is a set of them. */
  type View = set<nat>

  /** `heads` gives, for the current value of the word, the view released by each head. */
  datatype Memory = Memory(futex: State, heads: map<Tid, View>, seen: seq<View>, written: nat)

  datatype MAction = Word(a: Action) | WriteData(t: Tid)

  /** The first `written` writes. */
  function All(written: nat): View {
    if written == 0 then {} else All(written - 1) + {written - 1}
  }

  function Carried(heads: map<Tid, View>): View {
    set t, k | t in heads && k in heads[t] :: k
  }

  function InitMemory(futex: State): Memory {
    Memory(futex, map[], seq(|futex.pc|, _ => {}), 0)
  }

  predicate MEnabled(m: Memory, a: MAction) {
    |m.seen| == |m.futex.pc| &&
    match a
    case Word(b) => Enabled(m.futex, b)
    case WriteData(t) => t < |m.futex.pc| && m.futex.pc[t].Owner?
  }

  /** Acquire: thread `t` also sees what the word carries. */
  function Acquiring(m: Memory, t: Tid): Memory
    requires t < |m.seen|
  {
    m.(seen := m.seen[t := m.seen[t] + Carried(m.heads)])
  }

  /** A successful read-modify-write keeps every release sequence going; a relaxed store keeps
      those of its own thread, or none. A failed compare_exchange is relaxed and writes nothing. */
  function MApply(m: Memory, a: MAction, rule: Rule): Memory
    requires MEnabled(m, a)
  {
    match a
    case WriteData(t) => m.(seen := m.seen[t := m.seen[t] + {m.written}], written := m.written + 1)
    case Word(b) =>
      var next := m.(futex := Apply(m.futex, b));
      match b
      case CompareExchange(t) => if m.futex.value == UNLOCKED then Acquiring(next, t) else next
      case Exchange(t) => Acquiring(next, t)
      case FetchSub(t) => next.(heads := m.heads[t := m.seen[t]])
      case StoreUnlocked(t) =>
        next.(heads := if rule == Cpp17 && t in m.heads then map[t := m.heads[t]] else map[])
      case _ => next
  }

  predicate MRuns(m: Memory, acts: seq<MAction>, rule: Rule)
    decreases |acts|
  {
    acts == [] || (MEnabled(m, acts[0]) && MRuns(MApply(m, acts[0], rule), acts[1..], rule))
  }

  function MAfter(m: Memory, acts: seq<MAction>, rule: Rule): Memory
    requires MRuns(m, acts, rule)
    decreases |acts|
  {
    if acts == [] then m else MAfter(MApply(m, acts[0], rule), acts[1..], rule)
  }

  predicate IsContendedRelease(a: MAction) {
    a.Word? && a.a.StoreUnlocked?
  }

  predicate Uncontended(acts: seq<MAction>) {
    forall k :: 0 <= k < |acts| ==> !IsContendedRelease(acts[k])
  }

  ghost predicate Bounded(m: Memory) {
    && |m.seen| == |m.futex.pc|
    && (forall t :: t in m.heads ==> m.heads[t] <= All(m.written))
    && (forall t :: 0 <= t < |m.seen| ==> m.seen[t] <= All(m.written))
  }

  /** The holder sees every write; while the releaser is in its window the word carries all of
      them under its name; and so does a free word. */
  ghost predicate HandedOver(m: Memory, holder: Option<Tid>) {
    match holder
    case None => All(m.written) <= Carried(m.heads)
    case Some(h) =>
      && h < |m.seen| == |m.futex.pc|
      && m.seen[h] == All(m.written)
      && (m.futex.pc[h].Rel? ==> h in m.heads && m.heads[h] == All(m.written))
  }

  ghost predicate MInv(m: Memory, holder: Option<Tid>) {
    Inv(m.futex, holder) && Bounded(m) && HandedOver(m, holder)
  }

  function MHolder(m: Memory, holder: Option<Tid>, a: MAction): Option<Tid>
    requires MEnabled(m, a)
  {
    match a
    case Word(b) => HolderAfter(m.futex, holder, b)
    case WriteData(_) => holder
  }

  lemma CarriedBounded(heads: map<Tid, View>, all: View)
    requires forall t :: t in heads ==> heads[t] <= all
    ensures Carried(heads) <= all
    ensures forall t :: t in heads ==> heads[t] <= Carried(heads)
  {
  }

  lemma StepBounded(m: Memory, a: MAction, rule: Rule)
    requires Bounded(m) && MEnabled(m, a)
    ensures Bounded(MApply(m, a, rule))
  {
    CarriedBounded(m.heads, All(m.written));
    if a.WriteData? {
      assert All(m.written + 1) == All(m.written) + {m.written};
    }
  }

  /** One of three things happens to the holder at an action on the word. */
  lemma HolderCases(s: State, holder: Option<Tid>, b: Action)
    requires Inv(s, holder) && Enabled(s, b)
    ensures var after := HolderAfter(s, holder, b);
            || (after == holder && (b.FetchSub? ==> s.value == LOCKED_WAITERS) && !b.StoreUnlocked?)
            || (holder == None && after == Some(b.t) && s.value == UNLOCKED && (b.CompareExchange? || b.Exchange?))
            || (holder == Some(b.t) && after == None && (b.FetchSub? || b.StoreUnlocked?))
    ensures b.FetchSub? || b.StoreUnlocked? ==> holder == Some(b.t)
    ensures holder.Some? && holder.value != b.t ==> (Apply(s, b).pc[holder.value].Rel? <==> s.pc[holder.value].Rel?)
  {
    assert Holds(s.pc[b.t]) <==> holder == Some(b.t);
  }

  lemma StepHandedOver(m: Memory, holder: Option<Tid>, b: Action, rule: Rule)
    requires MInv(m, holder) && MEnabled(m, Word(b))
    requires rule == Cpp17 || !b.StoreUnlocked?
    ensures HandedOver(MApply(m, Word(b), rule), HolderAfter(m.futex, holder, b))
  {
    HolderCases(m.futex, holder, b);
    CarriedBounded(m.heads, All(m.written));
    if b.FetchSub? || b.StoreUnlocked? {
      var next := MApply(m, Word(b), rule);
      assert next.heads[b.t] == All(m.written);
      assert All(m.written) <= Carried(next.heads);
    }
  }

  lemma MStep(m: Memory, holder: Option<Tid>, a: MAction, rule: Rule)
    requires MInv(m, holder) && MEnabled(m, a)
    requires rule == Cpp17 || !IsContendedRelease(a)
    ensures MInv(MApply(m, a, rule), MHolder(m, holder, a))
  {
    StepBounded(m, a, rule);
    match a
    case WriteData(t) =>
      assert All(m.written + 1) == All(m.written) + {m.written};
      assert holder == Some(t);
    case Word(b) =>
      StepInv(m.futex, holder, b);
      StepHandedOver(m, holder, b, rule);
  }

  lemma {:induction false} MRun(m: Memory, holder: Option<Tid>, acts: seq<MAction>, rule: Rule) returns (last: Option<Tid>)
    requires MInv(m, holder) && MRuns(m, acts, rule)
    requires rule == Cpp17 || Uncontended(acts)
    ensures MInv(MAfter(m, acts, rule), last)
    decreases |acts|
  {
    if acts == [] {
      last := holder;
    } else {
      MStep(m, holder, acts[0], rule);
      last := MRun(MApply(m, acts[0], rule), MHolder(m, holder, acts[0]), acts[1..], rule);
    }
  }

  /** Under the C++17 rule every holder sees every write any holder ever made. Under the C++20
      rule the same holds of every run in which no release went through the wake path. */
  lemma HolderSeesEverything(s: State, holder: Option<Tid>, acts: seq<MAction>, rule: Rule)
    requires Start(s, holder) && MRuns(InitMemory(s), acts, rule)
    requires rule == Cpp17 || Uncontended(acts)
    ensures var m := MAfter(InitMemory(s), acts, rule);
            |m.seen| == |m.futex.pc| &&
            forall t :: 0 <= t < |m.futex.pc| && Holds(m.futex.pc[t]) ==> m.seen[t] == All(m.written)
  {
    StartInv(s, holder);
    var last := MRun(InitMemory(s), holder, acts, rule);
  }

  // ----- one handover, in any run

  /** What every run keeps, under either rule: nobody sees a write that was not made. */
  lemma {:induction false} BoundedRun(m: Memory, holder: Option<Tid>, acts: seq<MAction>, rule: Rule) returns (last: Option<Tid>)
    requires Inv(m.futex, holder) && Bounded(m) && MRuns(m, acts, rule)
    ensures Inv(MAfter(m, acts, rule).futex, last) && Bounded(MAfter(m, acts, rule))
    ensures |MAfter(m, acts, rule).seen| == |m.seen|
    decreases |acts|
  {
    if acts == [] {
      last := holder;
    } else {
      var a := acts[0];
      StepBounded(m, a, rule);
      if a.Word? {
        StepInv(m.futex, holder, a.a);
      }
      last := BoundedRun(MApply(m, a, rule), MHolder(m, holder, a), acts[1..], rule);
    }
  }

  /** Action `b` gives up the mutex: the word becomes 0. */
  predicate IsRelease(m: Memory, b: Action) {
    && MEnabled(m, Word(b))
    && Holds(m.futex.pc[b.t])
    && Apply(m.futex, b).value == UNLOCKED
  }

  lemma ReleaseCarries(m: Memory, rule: Rule, b: Action)
    requires Bounded(m) && IsRelease(m, b) && m.seen[b.t] == All(m.written)
    requires Inv(m.futex, Some(b.t))
    requires rule == Cpp17 && b.StoreUnlocked? ==> b.t in m.heads && m.heads[b.t] == All(m.written)
    ensures var carried := Carried(MApply(m, Word(b), rule).heads);
            carried == if rule == Cpp17 || b.FetchSub? then All(m.written) else {}
  {
    var next := MApply(m, Word(b), rule);
    assert b.FetchSub? || b.StoreUnlocked?;
    CarriedBounded(next.heads, All(m.written));
    if rule == Cpp17 || b.FetchSub? {
      assert next.heads[b.t] == All(m.written);
    }
  }

  lemma AllIsEmpty(written: nat)
    ensures All(written) == {} <==> written == 0
  {
    if written > 0 {
      assert written - 1 in All(written);
    }
  }

  /** In any run, exactly when a release by a holder that sees everything publishes it: always
      under the C++17 rule; under the C++20 rule when the release is the `fetch_sub` that found 1,
      so that `unlock` skips `wake`. (With nothing written there is nothing to publish.) */
  lemma ReleasePublishes(s: State, holder: Option<Tid>, acts: seq<MAction>, rule: Rule, b: Action)
    requires Start(s, holder) && MRuns(InitMemory(s), acts, rule)
    requires var m := MAfter(InitMemory(s), acts, rule);
             IsRelease(m, b) && m.seen[b.t] == All(m.written)
    ensures var m := MAfter(InitMemory(s), acts, rule);
            && (All(m.written) <= Carried(MApply(m, Word(b), rule).heads)
                <==> rule == Cpp17 || b.FetchSub? || m.written == 0)
            && Carried(MApply(m, Word(b), rule).heads)
               == if rule == Cpp17 || b.FetchSub? then All(m.written) else {}
  {
    var m := MAfter(InitMemory(s), acts, rule);
    StartInv(s, holder);
    var last := BoundedRun(InitMemory(s), holder, acts, rule);
    assert last == Some(b.t);
    if rule == Cpp17 {
      var h := MRun(InitMemory(s), holder, acts, rule);
      assert h == Some(b.t);
    }
    ReleaseCarries(m, rule, b);
    AllIsEmpty(m.written);
  }

  /** Action `c` takes the mutex. */
  predicate IsTaking(m: Memory, c: MAction) {
    MEnabled(m, c) && c.Word? && m.futex.value == UNLOCKED && (c.a.CompareExchange? || c.a.Exchange?)
  }

  predicate NobodyTakes(m: Memory, acts: seq<MAction>, rule: Rule)
    requires MRuns(m, acts, rule)
    decreases |acts|
  {
    acts == [] || (!IsTaking(m, acts[0]) && NobodyTakes(MApply(m, acts[0], rule), acts[1..], rule))
  }

  lemma FreeStep(m: Memory, a: MAction, rule: Rule)
    requires Inv(m.futex, None) && MEnabled(m, a) && !IsTaking(m, a)
    ensures var n := MApply(m, a, rule);
            n.heads == m.heads && n.seen == m.seen && n.written == m.written && Inv(n.futex, None)
  {
    assert a.WriteData? ==> !Holds(m.futex.pc[a.t]);
    if a.Word? {
      assert !Holds(m.futex.pc[a.a.t]);
      StepInv(m.futex, None, a.a);
    }
  }

  /** While the mutex is free nobody reads or writes anything that matters. */
  lemma {:induction false} FreeRun(m: Memory, acts: seq<MAction>, rule: Rule)
    requires Inv(m.futex, None) && MRuns(m, acts, rule) && NobodyTakes(m, acts, rule)
    ensures var n := MAfter(m, acts, rule);
            n.heads == m.heads && n.seen == m.seen && n.written == m.written && Inv(n.futex, None)
    decreases |acts|
  {
    if acts == [] {
    } else {
      FreeStep(m, acts[0], rule);
      FreeRun(MApply(m, acts[0], rule), acts[1..], rule);
    }
  }

  /** Taking a free mutex adds to a view what the word carries. */
  lemma TakingSees(m: Memory, c: MAction, rule: Rule, carried: View)
    requires Inv(m.futex, None) && Bounded(m) && IsTaking(m, c)
    requires carried == Carried(m.heads) && carried in {All(m.written), {}}
    ensures var n, u := MApply(m, c, rule), c.a.t;
            && u < |n.futex.pc| == |n.seen| && n.futex.pc[u] == Owner && n.written == m.written
            && (n.seen[u] == All(n.written) <==> carried == All(m.written) || m.seen[u] == All(m.written))
  {
    assert !Holds(m.futex.pc[c.a.t]);
    assert m.seen[c.a.t] <= All(m.written);
  }

  /** Handover, in any run and under either rule: after a release by a holder that sees everything,
      the next thread to take the mutex sees everything if and only if the C++17 rule applies, or
      the release is a `fetch_sub` that found 1, or nothing was written, or it had seen everything
      before. */
  lemma NextHolderSees(s: State, holder: Option<Tid>, acts: seq<MAction>, rule: Rule, b: Action, between: seq<MAction>,
                       c: MAction)
    requires Start(s, holder) && MRuns(InitMemory(s), acts, rule)
    requires var m := MAfter(InitMemory(s), acts, rule);
             && IsRelease(m, b) && m.seen[b.t] == All(m.written)
             && MRuns(MApply(m, Word(b), rule), between, rule) && NobodyTakes(MApply(m, Word(b), rule), between, rule)
             && IsTaking(MAfter(MApply(m, Word(b), rule), between, rule), c)
    ensures var m := MAfter(InitMemory(s), acts, rule);
            var n := MApply(MAfter(MApply(m, Word(b), rule), between, rule), c, rule);
            var u := c.a.t;
            && u < |n.futex.pc| == |n.seen| == |m.seen| && n.futex.pc[u] == Owner
            && (n.seen[u] == All(n.written)
                <==> rule == Cpp17 || b.FetchSub? || m.written == 0 || m.seen[u] == All(m.written))
  {
    var m := MAfter(InitMemory(s), acts, rule);
    var released := MApply(m, Word(b), rule);
    StartInv(s, holder);
    var last := BoundedRun(InitMemory(s), holder, acts, rule);
    ReleasePublishes(s, holder, acts, rule, b);
    ReleaseFrees(m, last, b, rule);
    FreeRun(released, between, rule);
    TakingSees(MAfter(released, between, rule), c, rule, Carried(released.heads));
    AllIsEmpty(m.written);
  }

  lemma ReleaseFrees(m: Memory, holder: Option<Tid>, b: Action, rule: Rule)
    requires Inv(m.futex, holder) && Bounded(m) && IsRelease(m, b)
    ensures var n := MApply(m, Word(b), rule);
            Inv(n.futex, None) && Bounded(n) && n.seen == m.seen && n.written == m.written
  {
    StepInv(m.futex, holder, b);
    StepBounded(m, Word(b), rule);
  }

  /** The contended handover: thread 0 writes under the lock while thread 1 goes to sleep,
      then unlocks through `wake`, and thread 1 acquires. */
  function ContendedAction(k: nat): MAction {
    if k == 0 then Word(Begin(0, Lock))
    else if k == 1 then Word(CompareExchange(0))
    else if k == 2 then WriteData(0)
    else if k == 3 then Word(Begin(1, Lock))
    else if k == 4 then Word(CompareExchange(1))
    else if k == 5 then Word(Exchange(1))
    else if k == 6 then Word(FutexWait(1))
    else if k == 7 then Word(FetchSub(0))
    else if k == 8 then Word(StoreUnlocked(0))
    else if k == 9 then Word(FutexWake(0, 0))
    else if k == 10 then Word(AfterWait(1))
    else Word(Exchange(1))
  }

  /** The state of that run before its k-th action. */
  function ContendedState(k: nat, rule: Rule): Memory {
    var kept: map<Tid, View> := if rule == Cpp17 then map[0 := {0}] else map[];
    if k == 0 then Memory(State(0, [], [Idle, Idle]), map[], [{}, {}], 0)
    else if k == 1 then Memory(State(0, [], [Cas(Lock, false), Idle]), map[], [{}, {}], 0)
    else if k == 2 then Memory(State(1, [], [Owner, Idle]), map[], [{}, {}], 0)
    else if k == 3 then Memory(State(1, [], [Owner, Idle]), map[], [{0}, {}], 1)
    else if k == 4 then Memory(State(1, [], [Owner, Cas(Lock, false)]), map[], [{0}, {}], 1)
    else if k == 5 then Memory(State(1, [], [Owner, Xchg(false, false)]), map[], [{0}, {}], 1)
    else if k == 6 then Memory(State(2, [], [Owner, WaitCall(false, false)]), map[], [{0}, {}], 1)
    else if k == 7 then Memory(State(2, [1], [Owner, Asleep(false, false)]), map[], [{0}, {}], 1)
    else if k == 8 then Memory(State(1, [1], [Rel, Asleep(false, false)]), map[0 := {0}], [{0}, {}], 1)
    else if k == 9 then Memory(State(0, [1], [Waker, Asleep(false, false)]), kept, [{0}, {}], 1)
    else if k == 10 then Memory(State(0, [], [Idle, Back(false, Zero, false)]), kept, [{0}, {}], 1)
    else if k == 11 then Memory(State(0, [], [Idle, Xchg(false, false)]), kept, [{0}, {}], 1)
    else Memory(State(2, [], [Idle, Owner]), kept, [{0}, if rule == Cpp17 then {0} else {}], 1)
  }

  ghost predicate ContendedStep(k: nat, rule: Rule) {
    var m, a := ContendedState(k, rule), ContendedAction(k);
    MEnabled(m, a) && MApply(m, a, rule) == ContendedState(k + 1, rule)
  }

  lemma SameMemory(m: Memory, n: Memory)
    requires m.futex.value == n.futex.value && m.futex.queue == n.futex.queue && m.futex.pc == n.futex.pc
    requires m.heads == n.heads && m.written == n.written
    requires |m.seen| == 2 == |n.seen| && m.seen[0] == n.seen[0] && m.seen[1] == n.seen[1]
    ensures m == n
  {
    assert m.seen == n.seen;
  }

  lemma ContendedStart(k: nat, rule: Rule)
    requires k < 5
    ensures ContendedStep(k, rule)
  {
    SameMemory(MApply(ContendedState(k, rule), ContendedAction(k), rule), ContendedState(k + 1, rule));
  }

  lemma ContendedSleep(k: nat, rule: Rule)
    requires 5 <= k < 9
    ensures ContendedStep(k, rule)
  {
    SameMemory(MApply(ContendedState(k, rule), ContendedAction(k), rule), ContendedState(k + 1, rule));
  }

  lemma CarriedOne(t: Tid, v: View)
    ensures Carried(map[t := v]) == v
  {
    var heads := map[t := v];
    assert forall k :: k in v ==> t in heads && k in heads[t] && k in Carried(heads);
  }

  lemma ContendedEnd(k: nat, rule: Rule)
    requires 9 <= k < 12
    ensures ContendedStep(k, rule)
  {
    CarriedOne(0, {0});
    SameMemory(MApply(ContendedState(k, rule), ContendedAction(k), rule), ContendedState(k + 1, rule));
  }

  lemma ContendedSteps(k: nat, rule: Rule)
    requires k < 12
    ensures ContendedStep(k, rule)
  {
    if k < 5 {
      ContendedStart(k, rule);
    } else if k < 9 {
      ContendedSleep(k, rule);
    } else {
      ContendedEnd(k, rule);
    }
  }

  /** The tail of that run, from its k-th action on. */
  lemma {:induction false} ContendedTail(k: nat, rule: Rule) returns (acts: seq<MAction>)
    requires k <= 12
    ensures MRuns(ContendedState(k, rule), acts, rule)
    ensures MAfter(ContendedState(k, rule), acts, rule) == ContendedState(12, rule)
    decreases 12 - k
  {
    if k == 12 {
      acts := [];
    } else {
      ContendedSteps(k, rule);
      var rest := ContendedTail(k + 1, rule);
      acts := [ContendedAction(k)] + rest;
    }
  }

  /** Under the C++20 rule the waiter of that run owns the mutex without a guarantee to see the
      write; under the C++17 rule it sees it. */
  lemma ContendedHandover(rule: Rule) returns (acts: seq<MAction>, m: Memory)
    ensures MRuns(InitMemory(Init(2)), acts, rule) && m == MAfter(InitMemory(Init(2)), acts, rule)
    ensures m.futex.pc == [Idle, Owner] && |m.seen| == 2 && m.written == 1
    ensures m.seen[1] == if rule == Cpp17 then All(m.written) else {}
  {
    var start := InitMemory(Init(2));
    assert start.futex.pc == [Idle, Idle];
    SameMemory(start, ContendedState(0, rule));
    acts := ContendedTail(0, rule);
    m := ContendedState(12, rule);
  }
}
