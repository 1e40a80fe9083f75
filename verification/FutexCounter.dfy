// The client of the futex test: every worker locks, increments a plain counter by a separate
// read and write, unlocks, and only then increments an atomic counter.

module FutexCounter {
  import opened Common
  import opened FutexModel
  import opened FutexSafety

  /** How far a worker is in its round. */
  datatype Phase =
    | Fresh               // the plain counter has not been read in this round
    | Loaded(reg: nat)    // read into a register
    | Stored              // written back; the atomic increment is still to come

  /** `modulus` is the number of values of the counters' type. The last two fields count, without
      wrapping, the critical sections that were completed and the atomic increments that were made. */
  datatype Client = Client(futex: State, plain: nat, atomic: nat, phase: seq<Phase>, modulus: nat,
                           sections: nat, adds: nat)

  datatype CAction = Word(a: Action) | LoadPlain(t: Tid) | StorePlain(t: Tid) | AddAtomic(t: Tid)

  function InitClient(n: nat, modulus: nat): Client {
    Client(Init(n), 0, 0, seq(n, _ => Fresh), modulus, 0, 0)
  }

  /** Program order: lock, read, write, unlock, atomic increment. Workers call only `lock`. */
  predicate CEnabled(c: Client, a: CAction) {
    && |c.phase| == |c.futex.pc|
    && c.modulus > 0
    && match a
       case Word(b) =>
         && Enabled(c.futex, b)
         && (b.Begin? ==> b.call == Lock && c.futex.pc[b.t].Idle? && c.phase[b.t] == Fresh)
         && (b.FetchSub? ==> c.phase[b.t] == Stored)
       case LoadPlain(t) => t < |c.phase| && c.futex.pc[t].Owner? && c.phase[t] == Fresh
       case StorePlain(t) => t < |c.phase| && c.futex.pc[t].Owner? && c.phase[t].Loaded?
       case AddAtomic(t) => t < |c.phase| && c.futex.pc[t].Idle? && c.phase[t] == Stored
  }

  function CApply(c: Client, a: CAction): Client
    requires CEnabled(c, a)
  {
    match a
    case Word(b) =>
      c.(futex := Apply(c.futex, b), sections := c.sections + if b.FetchSub? then 1 else 0)
    case LoadPlain(t) => c.(phase := c.phase[t := Loaded(c.plain)])
    case StorePlain(t) => c.(phase := c.phase[t := Stored], plain := (c.phase[t].reg + 1) % c.modulus)
    case AddAtomic(t) => c.(phase := c.phase[t := Fresh], atomic := (c.atomic + 1) % c.modulus, adds := c.adds + 1)
  }

  predicate CRuns(c: Client, acts: seq<CAction>)
    decreases |acts|
  {
    acts == [] || (CEnabled(c, acts[0]) && CRuns(CApply(c, acts[0]), acts[1..]))
  }

  function CAfter(c: Client, acts: seq<CAction>): Client
    requires CRuns(c, acts)
    decreases |acts|
  {
    if acts == [] then c else CAfter(CApply(c, acts[0]), acts[1..])
  }

  /** The holder has written the counter and not yet executed its `fetch_sub`. */
  predicate WrittenInside(c: Client, holder: Option<Tid>)
    requires holder.Some? ==> holder.value < |c.futex.pc| == |c.phase|
  {
    holder.Some? && c.futex.pc[holder.value].Owner? && c.phase[holder.value] == Stored
  }

  ghost function IsStored(): Phase -> nat {
    p => if p == Stored then 1 else 0
  }

  /** Workers whose atomic increment is still to come. */
  ghost function Pending(c: Client): nat {
    SumBy(IsStored(), c.phase)
  }

  ghost predicate PhasesMatch(c: Client, holder: Option<Tid>) {
    && |c.phase| == |c.futex.pc|
    && forall t :: 0 <= t < |c.phase| ==>
         && (c.phase[t].Loaded? ==> c.futex.pc[t].Owner? && c.phase[t].reg == c.plain)
         && (c.phase[t] == Fresh ==> !c.futex.pc[t].Rel? && !c.futex.pc[t].Waker?)
         && (InCall(c.futex.pc[t]) ==> !c.futex.pc[t].held && c.phase[t] != Stored)
  }

  ghost predicate CInv(c: Client, holder: Option<Tid>) {
    && c.modulus > 0
    && Inv(c.futex, holder)
    && PhasesMatch(c, holder)
    && c.plain == (c.sections + if WrittenInside(c, holder) then 1 else 0) % c.modulus
    && c.atomic == c.adds % c.modulus
    && c.sections + (if WrittenInside(c, holder) then 1 else 0) == c.adds + Pending(c)
  }

  function CHolder(c: Client, holder: Option<Tid>, a: CAction): Option<Tid>
    requires CEnabled(c, a)
  {
    match a
    case Word(b) => HolderAfter(c.futex, holder, b)
    case _ => holder
  }

  lemma WordPhases(c: Client, holder: Option<Tid>, b: Action)
    requires Inv(c.futex, holder) && PhasesMatch(c, holder) && CEnabled(c, Word(b))
    ensures PhasesMatch(CApply(c, Word(b)), HolderAfter(c.futex, holder, b))
  {
    if b.FutexWake? && c.futex.queue != [] {
      assert c.futex.queue[b.k] in c.futex.queue;
    }
  }

  /** Leaving the critical section turns "written inside" into one more completed section. */
  lemma WordWritten(c: Client, holder: Option<Tid>, b: Action)
    requires Inv(c.futex, holder) && PhasesMatch(c, holder) && CEnabled(c, Word(b))
    requires Inv(Apply(c.futex, b), HolderAfter(c.futex, holder, b))
    ensures WrittenInside(CApply(c, Word(b)), HolderAfter(c.futex, holder, b))
            == (WrittenInside(c, holder) && !b.FetchSub?)
    ensures b.FetchSub? ==> WrittenInside(c, holder)
  {
    assert Holds(c.futex.pc[b.t]) <==> holder == Some(b.t);
    if b.FutexWake? && c.futex.queue != [] {
      assert c.futex.queue[b.k] in c.futex.queue;
    }
  }

  lemma WordStep(c: Client, holder: Option<Tid>, b: Action)
    requires CInv(c, holder) && CEnabled(c, Word(b))
    ensures CInv(CApply(c, Word(b)), HolderAfter(c.futex, holder, b))
  {
    StepInv(c.futex, holder, b);
    WordPhases(c, holder, b);
    WordWritten(c, holder, b);
  }

  lemma DataStep(c: Client, holder: Option<Tid>, a: CAction)
    requires CInv(c, holder) && CEnabled(c, a) && !a.Word?
    ensures CInv(CApply(c, a), holder)
  {
    var next := CApply(c, a);
    assert a.LoadPlain? || a.StorePlain? ==> holder == Some(a.t);
    SumByUpdate(IsStored(), c.phase, a.t, next.phase[a.t]);
    ModSuccessor(c.sections, c.modulus);
    ModSuccessor(c.adds, c.modulus);
  }

  lemma {:induction false} CRun(c: Client, holder: Option<Tid>, acts: seq<CAction>) returns (last: Option<Tid>)
    requires CInv(c, holder) && CRuns(c, acts)
    ensures CInv(CAfter(c, acts), last)
    decreases |acts|
  {
    if acts == [] {
      last := holder;
    } else {
      if acts[0].Word? {
        WordStep(c, holder, acts[0].a);
      } else {
        DataStep(c, holder, acts[0]);
      }
      last := CRun(CApply(c, acts[0]), CHolder(c, holder, acts[0]), acts[1..]);
    }
  }

  lemma InitCInv(n: nat, modulus: nat)
    requires modulus > 0
    ensures CInv(InitClient(n, modulus), None)
  {
    SumByZero(IsStored(), InitClient(n, modulus).phase);
  }

  function IsUnlock(): CAction -> bool {
    (a: CAction) => a.Word? && a.a.FetchSub?
  }

  /** How many critical sections a run completes. */
  function Unlocks(acts: seq<CAction>): nat {
    Count(IsUnlock(), acts)
  }

  lemma {:induction false} ModulusKept(c: Client, acts: seq<CAction>)
    requires CRuns(c, acts)
    ensures CAfter(c, acts).modulus == c.modulus
    ensures CAfter(c, acts).sections == c.sections + Unlocks(acts)
    decreases |acts|
  {
    if acts == [] {
    } else {
      ModulusKept(CApply(c, acts[0]), acts[1..]);
    }
  }

  lemma ClientAt(n: nat, modulus: nat, acts: seq<CAction>) returns (holder: Option<Tid>)
    requires modulus > 0 && CRuns(InitClient(n, modulus), acts)
    ensures var c := CAfter(InitClient(n, modulus), acts);
            CInv(c, holder) && c.modulus == modulus && c.sections == Unlocks(acts)
  {
    InitCInv(n, modulus);
    ModulusKept(InitClient(n, modulus), acts);
    holder := CRun(InitClient(n, modulus), None, acts);
  }

  lemma NobodyInside(c: Client, holder: Option<Tid>)
    requires CInv(c, holder) && forall t :: 0 <= t < |c.futex.pc| ==> !c.futex.pc[t].Owner?
    ensures c.plain == c.sections % c.modulus
  {
    assert !WrittenInside(c, holder);
  }

  lemma AllRoundsDone(c: Client, holder: Option<Tid>)
    requires CInv(c, holder) && forall t :: 0 <= t < |c.phase| ==> c.phase[t] == Fresh
    ensures c.plain == c.atomic
  {
    SumByZero(IsStored(), c.phase);
  }

  /** Whenever no thread is inside the lock, the plain counter equals the number of critical
      sections completed (mod the counter's range); and when every worker has finished its
      round it equals the atomic counter, as the test requires. */
  lemma PlainCounterIsExact(n: nat, modulus: nat, acts: seq<CAction>)
    requires modulus > 0 && CRuns(InitClient(n, modulus), acts)
    ensures var c := CAfter(InitClient(n, modulus), acts);
            && ((forall t :: 0 <= t < |c.futex.pc| ==> !c.futex.pc[t].Owner?) ==> c.plain == Unlocks(acts) % modulus)
            && ((forall t :: 0 <= t < |c.phase| ==> c.phase[t] == Fresh) ==> c.plain == c.atomic)
  {
    var c := CAfter(InitClient(n, modulus), acts);
    var holder := ClientAt(n, modulus, acts);
    if forall t :: 0 <= t < |c.futex.pc| ==> !c.futex.pc[t].Owner? {
      NobodyInside(c, holder);
    }
    if forall t :: 0 <= t < |c.phase| ==> c.phase[t] == Fresh {
      AllRoundsDone(c, holder);
    }
  }

  /** It is the lock that makes the counter exact: two workers inside at once, who both read before
      either writes, count once. */
  lemma UnlockedUpdateIsLost(c: Client, t: Tid, u: Tid)
    requires t != u && CEnabled(c, LoadPlain(t)) && CEnabled(c, LoadPlain(u))
    ensures var both := CApply(CApply(c, LoadPlain(t)), LoadPlain(u));
            && CEnabled(both, StorePlain(t)) && CEnabled(CApply(both, StorePlain(t)), StorePlain(u))
            && CApply(CApply(both, StorePlain(t)), StorePlain(u)).plain == (c.plain + 1) % c.modulus
  {
  }

  /** A worker that is not waiting, or asleep, can go on with its round. */
  lemma WorkerGoesOn(c: Client, t: Tid)
    requires |c.phase| == |c.futex.pc| && c.modulus > 0 && t < |c.phase|
    ensures CEnabled(c, LoadPlain(t)) <==> c.futex.pc[t].Owner? && c.phase[t] == Fresh
    ensures CEnabled(c, StorePlain(t)) <==> c.futex.pc[t].Owner? && c.phase[t].Loaded?
    ensures CEnabled(c, Word(FetchSub(t))) <==> c.futex.pc[t].Owner? && c.phase[t] == Stored
    ensures CEnabled(c, AddAtomic(t)) <==> c.futex.pc[t].Idle? && c.phase[t] == Stored
    ensures CEnabled(c, Word(Begin(t, Lock))) <==> c.futex.pc[t].Idle? && c.phase[t] == Fresh
  {
  }
}
