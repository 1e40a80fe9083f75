// The bound on wrap-around is exact: a pop by compare-and-swap can break its stack after exactly
// those numbers of modifications that take the counter round a whole number of times.

module StackWrap {
  import opened Common
  import opened Platforms
  import opened StackModel
  import opened StackAtomic
  import opened StackRefinement
  import opened StackRuns

  /** Without any assumption on wrap-around: a pop's successful compare-and-swap is an atomic pop
      exactly when the word it read is still the word in the top block. */
  lemma {:induction false} PopIsSoundExactly(s: State, p: Spec, a: Action)
    requires Matches(s, p) && Enabled(s, a) && a.Store? && Succeeds(s, a)
    requires s.platform.Dwcas? && s.pc[a.t].op.Pop?
    ensures s.pc[a.t].cache.top in s.mem
    ensures Simulated(s, p, a) <==> s.pc[a.t].desired == s.mem[s.pc[a.t].cache.top]
  {
    var t, pc := a.t, s.pc[a.t];
    PopAtSwap(s, p, t);
    PopEffect(p, t, pc.i);
    ReplayTwo(p, Linearize(t), Respond(t, pc.cache.top));
    if pc.desired == s.mem[pc.cache.top] {
      PopKeepsShape(s, p, t, pc.i, NewCell(s, t));
      StoreFinishes(s, p, t, pc.i, NewCell(s, t));
    } else {
      PopTops(p, t, pc.i);
    }
  }

  /** What is known of a pop whose compare-and-swap is going to succeed. */
  lemma PopAtSwap(s: State, p: Spec, t: Tid)
    requires Matches(s, p) && t < |s.pc| && s.pc[t].Commit? && s.pc[t].op.Pop? && s.pc[t].i < |s.cells|
    requires s.platform.Dwcas? && s.pc[t].cache == s.cells[s.pc[t].i]
    ensures var i, top := s.pc[t].i, s.pc[t].cache.top;
            && t < |p.calls| && i < |p.stacks| && p.calls[t] == Pending(Pop, i) && p.stacks[i] != []
            && top == TopOf(p.stacks[i]) && top in s.mem && s.mem[top] == Below(p.stacks[i], |p.stacks[i]| - 1)
            && s.cells[i].counter == s.pc[t].cache.counter
  {
    assert ThreadOk(s, p, t);
    TopPlaced(s, p, s.pc[t].i);
  }

  lemma PopTops(p: Spec, t: Tid, i: nat)
    requires t < |p.calls| && i < |p.stacks| && p.calls[t] == Pending(Pop, i) && p.stacks[i] != []
    ensures TopOf(Effected(p, t).stacks[i]) == Below(p.stacks[i], |p.stacks[i]| - 1)
  {
    PopEffect(p, t, i);
  }

  // ----- what can be reached by lawful steps within the bound

  type Reached = (State, Spec) -> bool

  ghost predicate Closed(reached: Reached) {
    forall s, p, a, q :: reached(s, p) && GoodStep(s, p, a, q) ==> reached(Apply(s, a), q)
  }

  /** What holds of everything reachable by good steps holds at the end of some run. */
  lemma SomeRunEndsIn(s: State, p: Spec) returns (reached: Reached)
    ensures Closed(reached) && reached(s, p)
    ensures forall s1, p1 :: reached(s1, p1) ==> exists acts :: Ends(s, p, acts, s1, p1)
  {
    reached := (s1, p1) => exists acts :: Ends(s, p, acts, s1, p1);
    assert Ends(s, p, [], s, p);
    forall s1, p1, a, q | reached(s1, p1) && GoodStep(s1, p1, a, q)
      ensures reached(Apply(s1, a), q)
    {
      var acts :| Ends(s, p, acts, s1, p1);
      OneMoreStep(s, p, acts, p1, a, q);
    }
  }

  // ----- one stack, a victim (thread 0) and a worker (thread 1) that is between operations

  function At(w: nat, mem: map<Block, Word>, top: Word, version: nat, victim: Pc, worker: Pc): State {
    State(Dwcas(w), mem, [Cell(top, CounterAt(Dwcas(w), version))], [version], [{}], [victim, worker])
  }

  function Abstract(stack: seq<Block>, place: map<Block, Place>, victim: Status, worker: Status): Spec {
    Spec([stack], place, [victim, worker])
  }

  lemma AtMoved(w: nat, mem: map<Block, Word>, top: Word, version: nat, victim: Pc, worker: Pc, pc: Pc)
    ensures Moved(At(w, mem, top, version, victim, worker), 1, pc) == At(w, mem, top, version, victim, pc)
    ensures Moved(At(w, mem, top, version, victim, worker), 0, pc) == At(w, mem, top, version, pc, worker)
  {
    assert [victim, worker][1 := pc] == [victim, pc];
    assert [victim, worker][0 := pc] == [pc, worker];
  }

  lemma AtStored(w: nat, mem: map<Block, Word>, top: Word, version: nat, victim: Pc, worker: Pc, cell: Cell)
    requires cell.counter == CounterAt(Dwcas(w), version + 1)
    ensures Stored(At(w, mem, top, version, victim, worker), 1, 0, cell)
              == At(w, mem, cell.top, version + 1, victim, Idle)
  {
    AtMoved(w, mem, top, version, victim, worker, Idle);
    var s := Stored(At(w, mem, top, version, victim, worker), 1, 0, cell);
    assert s.cells == [cell] && s.versions == [version + 1] && s.monitors == [{}];
  }

  /** The worker invokes an operation and loads the cell, which does not show an empty stack. */
  lemma WorkerLoads(reached: Reached, w: nat, mem: map<Block, Word>, stack: seq<Block>, place: map<Block, Place>,
                    top: Word, version: nat, victim: Pc, call: Status, op: Op)
    requires Closed(reached) && reached(At(w, mem, top, version, victim, Idle), Abstract(stack, place, call, Out))
    requires op.Push? ==> op.b != NULL && op.b in place && place[op.b] == Held(1)
    requires op.Pop? ==> top != NULL
    ensures reached(At(w, mem, top, version, victim, Ready(op, 0, Cell(top, CounterAt(Dwcas(w), version)), version)),
                    Abstract(stack, place, call, Pending(op, 0)))
  {
    var s0, p0 := At(w, mem, top, version, victim, Idle), Abstract(stack, place, call, Out);
    var s1, p1 := At(w, mem, top, version, victim, Load(op, 0)), Abstract(stack, place, call, Pending(op, 0));
    AtMoved(w, mem, top, version, victim, Idle, Load(op, 0));
    ReplayOne(p0, Called(1, op, 0));
    assert p0.calls[1 := Pending(op, 0)] == p1.calls;
    assert GoodStep(s0, p0, Invoke(1, op, 0), p1);
    AtMoved(w, mem, top, version, victim, Load(op, 0), Ready(op, 0, Cell(top, CounterAt(Dwcas(w), version)), version));
    assert GoodStep(s1, p1, LoadCell(1), p1);
  }

  /** A whole push by the worker, without interference. */
  lemma WorkerPushes(reached: Reached, w: nat, mem: map<Block, Word>, stack: seq<Block>, place: map<Block, Place>,
                     top: Word, version: nat, victim: Pc, call: Status, b: Block)
    requires Closed(reached) && reached(At(w, mem, top, version, victim, Idle), Abstract(stack, place, call, Out))
    requires b != NULL && b in place && place[b] == Held(1) && b in mem
    ensures reached(At(w, mem[b := top], b, version + 1, victim, Idle),
                    Abstract(stack + [b], place[b := InStack(0, |stack|)], call, Out))
  {
    var cell, p := Cell(top, CounterAt(Dwcas(w), version)), Abstract(stack, place, call, Pending(Push(b), 0));
    var ready, commit := Ready(Push(b), 0, cell, version), Commit(Push(b), 0, cell, version, b);
    var s1, s2 := At(w, mem, top, version, victim, ready), At(w, mem[b := top], top, version, victim, commit);
    WorkerLoads(reached, w, mem, stack, place, top, version, victim, call, Push(b));
    AtMoved(w, mem, top, version, victim, ready, commit);
    assert GoodStep(s1, p, RunLambda(1, NULL), p);
    AtStored(w, mem[b := top], top, version, victim, commit, NewCell(s2, 1));
    var q := Abstract(stack + [b], place[b := InStack(0, |stack|)], call, Out);
    ReplayTwo(p, Linearize(1), Respond(1, NULL));
    assert p.stacks[0 := stack + [b]] == q.stacks;
    assert p.calls[1 := Done(Push(b), 0, NULL)][1 := Out] == q.calls;
    assert GoodStep(s2, p, Store(1, false), q);
  }

  /** A whole pop by the worker, without interference. */
  lemma WorkerPops(reached: Reached, w: nat, mem: map<Block, Word>, stack: seq<Block>, place: map<Block, Place>,
                   top: Word, version: nat, victim: Pc, call: Status)
    requires Closed(reached) && reached(At(w, mem, top, version, victim, Idle), Abstract(stack + [top], place, call, Out))
    requires top != NULL && top in mem
    ensures reached(At(w, mem, mem[top], version + 1, victim, Idle), Abstract(stack, place[top := Held(1)], call, Out))
  {
    var cell, p := Cell(top, CounterAt(Dwcas(w), version)), Abstract(stack + [top], place, call, Pending(Pop, 0));
    var ready, commit := Ready(Pop, 0, cell, version), Commit(Pop, 0, cell, version, mem[top]);
    var s1, s2 := At(w, mem, top, version, victim, ready), At(w, mem, top, version, victim, commit);
    WorkerLoads(reached, w, mem, stack + [top], place, top, version, victim, call, Pop);
    AtMoved(w, mem, top, version, victim, ready, commit);
    assert GoodStep(s1, p, RunLambda(1, mem[top]), p);
    AtStored(w, mem, top, version, victim, commit, NewCell(s2, 1));
    var q := Abstract(stack, place[top := Held(1)], call, Out);
    ReplayTwo(p, Linearize(1), Respond(1, top));
    assert (stack + [top])[..|stack|] == stack;
    assert p.stacks[0 := stack] == q.stacks;
    assert p.calls[1 := Done(Pop, 0, top)][1 := Out] == q.calls;
    assert GoodStep(s2, p, Store(1, false), q);
  }

  // ----- the run

  const FREE: map<Block, Word> := map[1 := NULL, 2 := NULL, 3 := NULL]
  const INHAND: map<Block, Place> := map[1 := Held(1), 2 := Held(1), 3 := Held(1)]

  const LINKED: map<Block, Word> := map[1 := 2, 2 := 3, 3 := NULL]
  const STACKED: map<Block, Place> := map[1 := InStack(0, 2), 2 := InStack(0, 1), 3 := InStack(0, 0)]

  const ALONE: map<Block, Word> := map[1 := NULL, 2 := 3, 3 := NULL]
  const TAKEN: map<Block, Place> := map[1 := InStack(0, 0), 2 := Held(1), 3 := Held(1)]

  lemma MapsFit()
    ensures FREE[3 := NULL] == FREE && FREE[2 := 3] == ALONE && ALONE[1 := 2] == LINKED && LINKED[1 := NULL] == ALONE
  {
  }

  lemma PlacesFit()
    ensures INHAND[3 := InStack(0, 0)][2 := InStack(0, 1)][1 := InStack(0, 2)] == STACKED
    ensures STACKED[1 := Held(1)][2 := Held(1)][3 := Held(1)] == INHAND && INHAND[1 := InStack(0, 0)] == TAKEN
  {
  }

  /** The worker builds the stack 1 over 2 over 3; the victim has not started. */
  lemma WorkerFills(reached: Reached, w: nat)
    requires Closed(reached) && reached(At(w, FREE, NULL, 0, Idle, Idle), Abstract([], INHAND, Out, Out))
    ensures reached(At(w, LINKED, 1, 3, Idle, Idle), Abstract([3, 2, 1], STACKED, Out, Out))
  {
    var place1, place2 := INHAND[3 := InStack(0, 0)], INHAND[3 := InStack(0, 0)][2 := InStack(0, 1)];
    MapsFit();
    PlacesFit();
    assert [] + [3] == [3] && [3] + [2] == [3, 2] && [3, 2] + [1] == [3, 2, 1];
    WorkerPushes(reached, w, FREE, [], INHAND, NULL, 0, Idle, Out, 3);
    WorkerPushes(reached, w, FREE, [3], place1, 3, 1, Idle, Out, 2);
    WorkerPushes(reached, w, ALONE, [3, 2], place2, 2, 2, Idle, Out, 1);
  }

  /** The victim's cache: top 1 with the counter of version 3, and 2 to be stored. */
  function VictimReady(w: nat): Pc {
    Commit(Pop, 0, Cell(1, CounterAt(Dwcas(w), 3)), 3, 2)
  }

  /** The victim's cache when it has loaded the cell. */
  function VictimLoaded(w: nat): Pc {
    Ready(Pop, 0, Cell(1, CounterAt(Dwcas(w), 3)), 3)
  }

  /** The victim begins a pop and loads the cell. */
  lemma VictimLoads(reached: Reached, w: nat)
    requires Closed(reached) && reached(At(w, LINKED, 1, 3, Idle, Idle), Abstract([3, 2, 1], STACKED, Out, Out))
    ensures reached(At(w, LINKED, 1, 3, VictimLoaded(w), Idle), Abstract([3, 2, 1], STACKED, Pending(Pop, 0), Out))
  {
    var s0, p0 := At(w, LINKED, 1, 3, Idle, Idle), Abstract([3, 2, 1], STACKED, Out, Out);
    var s1, p1 := At(w, LINKED, 1, 3, Load(Pop, 0), Idle), Abstract([3, 2, 1], STACKED, Pending(Pop, 0), Out);
    AtMoved(w, LINKED, 1, 3, Idle, Idle, Load(Pop, 0));
    ReplayOne(p0, Called(0, Pop, 0));
    assert p0.calls[0 := Pending(Pop, 0)] == p1.calls;
    assert GoodStep(s0, p0, Invoke(0, Pop, 0), p1);
    AtMoved(w, LINKED, 1, 3, Load(Pop, 0), Idle, VictimLoaded(w));
    assert GoodStep(s1, p1, LoadCell(0), p1);
  }

  /** It reads the word of the top block, 2. */
  lemma VictimReads(reached: Reached, w: nat)
    requires Closed(reached) && reached(At(w, LINKED, 1, 3, Idle, Idle), Abstract([3, 2, 1], STACKED, Out, Out))
    ensures reached(At(w, LINKED, 1, 3, VictimReady(w), Idle), Abstract([3, 2, 1], STACKED, Pending(Pop, 0), Out))
  {
    VictimLoads(reached, w);
    var s, p := At(w, LINKED, 1, 3, VictimLoaded(w), Idle), Abstract([3, 2, 1], STACKED, Pending(Pop, 0), Out);
    AtMoved(w, LINKED, 1, 3, VictimLoaded(w), Idle, VictimReady(w));
    assert GoodStep(s, p, RunLambda(0, 2), p);
  }

  /** Meanwhile the worker pops 1, 2 and 3, and pushes 1 again. */
  lemma WorkerReplaces(reached: Reached, w: nat, victim: Pc, call: Status)
    requires Closed(reached) && reached(At(w, LINKED, 1, 3, victim, Idle), Abstract([3, 2, 1], STACKED, call, Out))
    ensures reached(At(w, ALONE, 1, 7, victim, Idle), Abstract([1], TAKEN, call, Out))
  {
    var place1, place2 := STACKED[1 := Held(1)], STACKED[1 := Held(1)][2 := Held(1)];
    MapsFit();
    PlacesFit();
    assert [3, 2, 1] == [3, 2] + [1] && [3, 2] == [3] + [2] && [3] == [] + [3] && [1] == [] + [1];
    WorkerPops(reached, w, LINKED, [3, 2], STACKED, 1, 3, victim, call);
    WorkerPops(reached, w, LINKED, [3], place1, 2, 4, victim, call);
    WorkerPops(reached, w, LINKED, [], place2, 3, 5, victim, call);
    WorkerPushes(reached, w, LINKED, [], INHAND, NULL, 6, victim, call, 1);
  }

  /** Block 1 is popped and pushed back `m` times. */
  lemma {:induction false} WorkerPairs(reached: Reached, w: nat, version: nat, victim: Pc, call: Status,
                                     m: nat)
    requires Closed(reached) && reached(At(w, ALONE, 1, version, victim, Idle), Abstract([1], TAKEN, call, Out))
    ensures reached(At(w, ALONE, 1, version + 2 * m, victim, Idle), Abstract([1], TAKEN, call, Out))
    decreases m
  {
    if m == 0 {
    } else {
      assert [1] == [] + [1];
      assert ALONE[1 := NULL] == ALONE && TAKEN[1 := Held(1)][1 := InStack(0, 0)] == TAKEN;
      WorkerPops(reached, w, ALONE, [], TAKEN, 1, version, victim, call);
      WorkerPushes(reached, w, ALONE, [], TAKEN[1 := Held(1)], NULL, version + 1, victim, call, 1);
      WorkerPairs(reached, w, version + 2, victim, call, m - 1);
    }
  }

  /** The state in which the victim is about to swap, k modifications after its load. */
  function Overdue(w: nat, k: nat): State {
    At(w, ALONE, 1, 3 + k, VictimReady(w), Idle)
  }

  function OverdueSpec(): Spec {
    Abstract([1], TAKEN, Pending(Pop, 0), Out)
  }

  /** The run up to the victim's compare-and-swap. */
  lemma WholeTurns(reached: Reached, w: nat, k: nat)
    requires k >= 4 && k % 2 == 0
    requires Closed(reached) && reached(At(w, FREE, NULL, 0, Idle, Idle), Abstract([], INHAND, Out, Out))
    ensures reached(Overdue(w, k), OverdueSpec())
  {
    WorkerFills(reached, w);
    VictimReads(reached, w);
    WorkerReplaces(reached, w, VictimReady(w), Pending(Pop, 0));
    WorkerPairs(reached, w, 7, VictimReady(w), Pending(Pop, 0), (k - 4) / 2);
  }

  /** Thread t is about to swap, k modifications after its load; the swap succeeds, and the step
      is no step of the atomic stacks. */
  ghost predicate UnsoundPop(n: State, q: Spec, t: Tid, w: nat, k: nat) {
    var a := Store(t, false);
    && Enabled(n, a) && n.platform == Dwcas(w) && n.pc[t].op.Pop?
    && n.versions[n.pc[t].i] == n.pc[t].ver + k
    && Succeeds(n, a)
    && !Simulated(n, q, a)
  }

  lemma OverdueSucceeds(w: nat, k: nat)
    requires k % Pow2(w) == 0
    ensures var n := Overdue(w, k);
            Enabled(n, Store(0, false)) && Succeeds(n, Store(0, false)) && n.versions[0] == n.pc[0].ver + k
  {
    CounterRepeats(w, 3, k);
  }

  /** The swap puts on top of the stack a block that the other thread holds. */
  lemma OverdueStores(w: nat, k: nat)
    requires Enabled(Overdue(w, k), Store(0, false)) && Succeeds(Overdue(w, k), Store(0, false))
    ensures var n := Apply(Overdue(w, k), Store(0, false));
            |n.cells| == 1 && n.cells[0].top == 2 && OverdueSpec().place[2] == Held(1)
  {
    assert NewCell(Overdue(w, k), 0).top == 2;
  }

  lemma OverdueBreaks(w: nat, k: nat)
    requires k % Pow2(w) == 0 && Matches(Overdue(w, k), OverdueSpec())
    ensures UnsoundPop(Overdue(w, k), OverdueSpec(), 0, w, k)
  {
    OverdueSucceeds(w, k);
    assert Overdue(w, k).mem[1] == NULL;
    PopIsSoundExactly(Overdue(w, k), OverdueSpec(), Store(0, false));
  }

  lemma TwiceTimes(k: nat, h: nat, q: nat)
    requires k == (2 * h) * q
    ensures k == 2 * (h * q) && k % 2 == 0
  {
  }

  lemma Quotient(k: nat, m: nat) returns (q: nat)
    requires m > 0 && k % m == 0
    ensures k == m * q
  {
    q := k / m;
  }

  /** A multiple of 2^w, other than zero. */
  lemma MultipleOfTurns(w: nat, k: nat)
    requires w >= 1 && k > 0 && k % Pow2(w) == 0
    ensures k % 2 == 0 && (w >= 2 ==> k >= 4)
  {
    var q := Quotient(k, Pow2(w));
    TwiceTimes(k, Pow2(w - 1), q);
    if w >= 2 {
      TwiceTimes(Pow2(w - 1) * q, Pow2(w - 2), q);
    }
  }

  /** New stacks, and what good steps reach from them. */
  lemma FromNew(w: nat) returns (s: State, p: Spec, reached: Reached)
    ensures s == Init(Dwcas(w), FREE, 1, 2) && p == InitSpec(INHAND, 1, 2) && AllHeld(FREE, INHAND)
    ensures Matches(s, p) && Closed(reached)
    ensures reached(At(w, FREE, NULL, 0, Idle, Idle), Abstract([], INHAND, Out, Out))
    ensures forall s1, p1 :: reached(s1, p1) ==> exists acts :: Ends(s, p, acts, s1, p1)
  {
    s, p := Init(Dwcas(w), FREE, 1, 2), InitSpec(INHAND, 1, 2);
    InitMatches(Dwcas(w), FREE, INHAND, 1, 2);
    assert s == At(w, FREE, NULL, 0, Idle, Idle) && p == Abstract([], INHAND, Out, Out);
    reached := SomeRunEndsIn(s, p);
  }

  /** For every multiple k of 2^w from 4 on (with w >= 2 bits, 2^w itself to begin with) there is a
      run from empty stacks, within the bound, in which the victim makes an honest read and whose
      next step breaks the stack: k modifications after the victim's load its swap succeeds and
      puts on top a block that the other thread holds. */
  lemma {:induction false} TurnsBreakTheStack(w: nat, k: nat) returns (s: State, p: Spec, acts: seq<Action>)
    requires w >= 1 && k >= 4 && k % Pow2(w) == 0
    ensures s == Init(Dwcas(w), FREE, 1, 2) && p == InitSpec(INHAND, 1, 2) && AllHeld(FREE, INHAND)
    ensures Ends(s, p, acts, Overdue(w, k), OverdueSpec())
    ensures UnsoundPop(Overdue(w, k), OverdueSpec(), 0, w, k)
    ensures var n := Apply(Overdue(w, k), Store(0, false));
            n.cells[0].top in OverdueSpec().place && OverdueSpec().place[n.cells[0].top] == Held(1)
  {
    MultipleOfTurns(w, k);
    var reached;
    s, p, reached := FromNew(w);
    WholeTurns(reached, w, k);
    acts := MatchingRun(s, p, Overdue(w, k), OverdueSpec(), reached);
    OverdueBreaks(w, k);
    OverdueStores(w, k);
  }

  /** What is reached is reached by a run, and so matches. */
  lemma MatchingRun(s: State, p: Spec, n: State, q: Spec, reached: Reached) returns (acts: seq<Action>)
    requires Matches(s, p) && reached(n, q)
    requires forall s1, p1 :: reached(s1, p1) ==> exists acts :: Ends(s, p, acts, s1, p1)
    ensures Ends(s, p, acts, n, q) && Matches(n, q)
  {
    acts :| Ends(s, p, acts, n, q);
    StacksAreLinearizable(s, p, acts);
  }

  // ----- one bit

  /** The victim's cache in the run for a counter of one bit: it has read 3 from block 1. */
  function VictimMisled(w: nat): Pc {
    Commit(Pop, 0, Cell(1, CounterAt(Dwcas(w), 3)), 3, 3)
  }

  /** After the victim's load the worker pops block 1 and writes 3 into it, which the victim reads. */
  lemma VictimIsMisled(reached: Reached, w: nat)
    requires Closed(reached)
    requires reached(At(w, LINKED, 1, 3, VictimLoaded(w), Idle), Abstract([3, 2, 1], STACKED, Pending(Pop, 0), Out))
    ensures reached(At(w, LINKED[1 := 3], 2, 4, VictimMisled(w), Idle),
                    Abstract([3, 2], STACKED[1 := Held(1)], Pending(Pop, 0), Out))
  {
    var s, p := At(w, LINKED, 2, 4, VictimLoaded(w), Idle), Abstract([3, 2], STACKED[1 := Held(1)], Pending(Pop, 0), Out);
    assert [3, 2, 1] == [3, 2] + [1];
    WorkerPops(reached, w, LINKED, [3, 2], STACKED, 1, 3, VictimLoaded(w), Pending(Pop, 0));
    ReplayOne(p, Written(1, 1));
    assert GoodStep(s, p, Scribble(1, 1, 3), p);
    AtMoved(w, LINKED[1 := 3], 2, 4, VictimLoaded(w), Idle, VictimMisled(w));
    assert GoodStep(At(w, LINKED[1 := 3], 2, 4, VictimLoaded(w), Idle), p, RunLambda(0, 3), p);
  }

  /** Then the worker pushes it back. */
  lemma WorkerMisleads(reached: Reached, w: nat)
    requires Closed(reached)
    requires reached(At(w, LINKED, 1, 3, VictimLoaded(w), Idle), Abstract([3, 2, 1], STACKED, Pending(Pop, 0), Out))
    ensures reached(At(w, LINKED, 1, 5, VictimMisled(w), Idle), Abstract([3, 2, 1], STACKED, Pending(Pop, 0), Out))
  {
    var taken, scribbled := STACKED[1 := Held(1)], LINKED[1 := 3];
    VictimIsMisled(reached, w);
    WorkerPushes(reached, w, scribbled, [3, 2], taken, 2, 4, VictimMisled(w), Pending(Pop, 0), 1);
    assert scribbled[1 := 2] == LINKED && taken[1 := InStack(0, 2)] == STACKED;
    assert [3, 2] + [1] == [3, 2, 1];
  }

  lemma OneBitBreaks() returns (s: State, p: Spec, acts: seq<Action>, n: State, q: Spec)
    ensures s == Init(Dwcas(1), FREE, 1, 2) && p == InitSpec(INHAND, 1, 2) && AllHeld(FREE, INHAND)
    ensures Ends(s, p, acts, n, q) && UnsoundPop(n, q, 0, 1, 2)
  {
    var reached;
    s, p, reached := FromNew(1);
    n, q := At(1, LINKED, 1, 5, VictimMisled(1), Idle), Abstract([3, 2, 1], STACKED, Pending(Pop, 0), Out);
    MisledIsReached(reached);
    acts := MatchingRun(s, p, n, q, reached);
    MisledBreaks(n, q);
  }

  lemma MisledIsReached(reached: Reached)
    requires Closed(reached) && reached(At(1, FREE, NULL, 0, Idle, Idle), Abstract([], INHAND, Out, Out))
    ensures reached(At(1, LINKED, 1, 5, VictimMisled(1), Idle), Abstract([3, 2, 1], STACKED, Pending(Pop, 0), Out))
  {
    WorkerFills(reached, 1);
    VictimLoads(reached, 1);
    WorkerMisleads(reached, 1);
  }

  lemma MisledBreaks(n: State, q: Spec)
    requires n == At(1, LINKED, 1, 5, VictimMisled(1), Idle) && q == Abstract([3, 2, 1], STACKED, Pending(Pop, 0), Out)
    requires Matches(n, q)
    ensures UnsoundPop(n, q, 0, 1, 2)
  {
    assert Pow2(1) == 2 * Pow2(0) && Pow2(0) == 1;
    CounterRepeats(1, 3, 2);
    PopIsSoundExactly(n, q, Store(0, false));
  }

  // ----- the exact bound

  /** New stacks over a counter of w bits: all empty, every block in some thread's hands. */
  ghost predicate IsNew(s: State, p: Spec, w: nat) {
    exists place, stacks, n ::
      AllHeld(s.mem, place) && s == Init(Dwcas(w), s.mem, stacks, n) && p == InitSpec(place, stacks, n)
  }

  /** A lawful run within the bound up to an unsound pop, k modifications after its load. */
  ghost predicate BreaksAfter(s: State, p: Spec, acts: seq<Action>, n: State, q: Spec, t: Tid, w: nat, k: nat) {
    IsNew(s, p, w) && Ends(s, p, acts, n, q) && UnsoundPop(n, q, t, w, k)
  }

  /** A swap that succeeds sees the counter of its load. */
  lemma SwapSeesCounter(n: State, q: Spec, t: Tid)
    requires Matches(n, q) && Enabled(n, Store(t, false)) && Succeeds(n, Store(t, false)) && n.platform.Dwcas?
    ensures var pc := n.pc[t];
            CounterAt(n.platform, pc.ver) == CounterAt(n.platform, n.versions[pc.i])
  {
    assert ThreadOk(n, q, t);
  }

  /** So the counter went round a whole number of times. */
  lemma SuccessMeansTurns(n: State, q: Spec, t: Tid, w: nat, k: nat)
    requires Matches(n, q) && UnsoundPop(n, q, t, w, k)
    ensures k % Pow2(w) == 0
  {
    hide Matches, Simulated;
    SwapSeesCounter(n, q, t);
    CounterRepeats(w, n.pc[t].ver, k);
  }

  lemma NewMatches(s: State, p: Spec, w: nat)
    requires IsNew(s, p, w)
    ensures Matches(s, p)
  {
    var place, stacks, n :|
      AllHeld(s.mem, place) && s == Init(Dwcas(w), s.mem, stacks, n) && p == InitSpec(place, stacks, n);
    InitMatches(Dwcas(w), s.mem, place, stacks, n);
  }

  /** The bound is exact: for a counter of w >= 1 bits, and k > 0, a pop whose swap succeeds after
      exactly k modifications of its stack can be unsound if and only if 2^w divides k. */
  lemma UnsoundExactlyAtTurns(w: nat, k: nat)
    requires w >= 1 && k > 0
    ensures (exists s, p, acts, n, q, t :: BreaksAfter(s, p, acts, n, q, t, w, k)) <==> k % Pow2(w) == 0
  {
    if k % Pow2(w) == 0 {
      var s, p, acts, n, q := BreakingRun(w, k);
      assert BreaksAfter(s, p, acts, n, q, 0, w, k);
    }
    forall s, p, acts, n, q, t | BreaksAfter(s, p, acts, n, q, t, w, k)
      ensures k % Pow2(w) == 0
    {
      NewMatches(s, p, w);
      StacksAreLinearizable(s, p, acts);
      SuccessMeansTurns(n, q, t, w, k);
    }
  }

  lemma BreakingRun(w: nat, k: nat) returns (s: State, p: Spec, acts: seq<Action>, n: State, q: Spec)
    requires w >= 1 && k > 0 && k % Pow2(w) == 0
    ensures BreaksAfter(s, p, acts, n, q, 0, w, k)
  {
    MultipleOfTurns(w, k);
    if k >= 4 {
      s, p, acts := TurnsBreakTheStack(w, k);
      n, q := Overdue(w, k), OverdueSpec();
    } else {
      s, p, acts, n, q := OneBitBreaks();
    }
    assert AllHeld(s.mem, INHAND) && s == Init(Dwcas(w), s.mem, 1, 2) && p == InitSpec(INHAND, 1, 2);
  }
}
