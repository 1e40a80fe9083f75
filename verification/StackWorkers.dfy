// The client of the stack test: every worker pops blocks from its own stack and pushes them
// round-robin onto all stacks, until the end flag stops it. No block is lost or duplicated.

module StackWorkers {
  import opened Common
  import opened Platforms
  import opened StackModel
  import opened StackAtomic
  import opened StackRefinement
  import opened StackRuns
  import opened StackSystem

  /** Where a worker is in its two nested loops. */
  datatype Worker =
    | Outer              // about to test the end flag of the outer loop
    | Inner              // about to test it again, before a pop
    | Popping            // inside pop
    | Got(b: Block)      // pop returned a block
    | Pushing(b: Block)  // inside push
    | Finished

  /** Worker t works on thread t and stack t; `next` is its `push_thread`. */
  datatype World = World(s: State, p: Spec, worker: seq<Worker>, next: seq<nat>, end: bool)

  datatype WAction =
    | EndTest                // the main thread sets the flag
    | TestOuter(t: Tid)
    | TestInner(t: Tid)      // the flag and, if it is clear, the call of pop
    | StartPush(t: Tid)
    | Operate(a: Action)     // a step of an operation in progress

  predicate WEnabled(w: World, a: WAction) {
    && |w.worker| == |w.next| == |w.s.pc| == |w.s.cells|
    && match a
       case EndTest => true
       case TestOuter(t) => t < |w.worker| && w.worker[t] == Outer
       case TestInner(t) =>
         t < |w.worker| && w.worker[t] == Inner && (!w.end ==> Enabled(w.s, Invoke(t, Pop, t)))
       case StartPush(t) =>
         t < |w.worker| && w.worker[t].Got? && Enabled(w.s, Invoke(t, Push(w.worker[t].b), w.next[t]))
       case Operate(b) =>
         && b.t < |w.worker| && (w.worker[b.t] == Popping || w.worker[b.t].Pushing?)
         && (b.LoadCell? || b.RunLambda? || b.Store?)
         && Enabled(w.s, b) && WithinBound(w.s, b)
  }

  /** What an operation returns at this step, if it returns. */
  function Response(s: State, a: Action): Option<Word>
    requires Enabled(s, a)
  {
    var es := Events(s, a);
    if es != [] && es[|es| - 1].Respond? then Some(es[|es| - 1].result) else None
  }

  /** One step of the stacks, concrete and abstract. */
  function Advance(w: World, a: Action): World
    requires Enabled(w.s, a)
  {
    w.(s := Apply(w.s, a), p := match Replay(w.p, Events(w.s, a)) { case Some(q) => q case None => w.p })
  }

  function WApply(w: World, a: WAction): World
    requires WEnabled(w, a)
  {
    match a
    case EndTest => w.(end := true)
    case TestOuter(t) => w.(worker := w.worker[t := if w.end then Finished else Inner])
    case TestInner(t) =>
      if w.end then w.(worker := w.worker[t := Outer])
      else Advance(w, Invoke(t, Pop, t)).(worker := w.worker[t := Popping])
    case StartPush(t) =>
      var b := w.worker[t].b;
      Advance(w, Invoke(t, Push(b), w.next[t])).(worker := w.worker[t := Pushing(b)])
    case Operate(b) =>
      var n, t := Advance(w, b), b.t;
      (match Response(w.s, b)
       case None => n
       case Some(result) =>
         if w.worker[t].Pushing? then
           n.(worker := w.worker[t := Inner], next := w.next[t := (w.next[t] + 1) % |w.next|])
         else n.(worker := w.worker[t := if result == NULL then Outer else Got(result)]))
  }

  predicate WRuns(w: World, acts: seq<WAction>)
    decreases |acts|
  {
    acts == [] || (WEnabled(w, acts[0]) && WRuns(WApply(w, acts[0]), acts[1..]))
  }

  function WAfter(w: World, acts: seq<WAction>): World
    requires WRuns(w, acts)
    decreases |acts|
  {
    if acts == [] then w else WAfter(WApply(w, acts[0]), acts[1..])
  }

  /** What a worker holds. */
  function Hand(worker: Worker): set<Block> {
    if worker.Got? || worker.Pushing? then {worker.b} else {}
  }

  ghost predicate WorkerFits(w: World, t: Tid)
    requires t < |w.worker| == |w.next| == |w.s.pc| == |w.s.cells|
  {
    && w.next[t] < |w.next|
    && match w.worker[t]
       case Popping => !w.s.pc[t].Idle? && w.s.pc[t].op == Pop
       case Pushing(b) => !w.s.pc[t].Idle? && w.s.pc[t].op == Push(b)
       case _ => w.s.pc[t].Idle?
  }

  ghost predicate HandsMatch(place: map<Block, Place>, worker: seq<Worker>) {
    && (forall b :: b in place && place[b].Held? ==> place[b].t < |worker| && b in Hand(worker[place[b].t]))
    && (forall t, b :: 0 <= t < |worker| && b in Hand(worker[t]) ==> b in place && place[b] == Held(t))
  }

  ghost predicate WInv(w: World) {
    && |w.worker| == |w.next| == |w.s.pc| == |w.s.cells|
    && Matches(w.s, w.p)
    && (forall t :: 0 <= t < |w.worker| ==> WorkerFits(w, t))
    && HandsMatch(w.p.place, w.worker)
  }

  /** How the test begins its workers: all blocks on the stacks, nobody in a call. */
  ghost predicate WStart(w: World) {
    && |w.worker| == |w.next| == |w.s.pc| == |w.s.cells|
    && Matches(w.s, w.p)
    && (forall t :: 0 <= t < |w.worker| ==> w.worker[t] == Outer && w.next[t] == 0 && w.s.pc[t] == Idle)
    && (forall b :: b in w.p.place ==> w.p.place[b].InStack?)
  }

  // ----- what one step of an operation does to the blocks

  /** How the abstract place of blocks and the thread's position change, if the step is `a`. */
  ghost predicate HasEffect(s: State, p: Spec, a: Action)
    requires Enabled(s, a) && !s.pc[a.t].Idle? && Replay(p, Events(s, a)).Some? && |Apply(s, a).pc| == |s.pc|
  {
    var q, op, n := Replay(p, Events(s, a)).value, s.pc[a.t].op, Apply(s, a);
    match Response(s, a)
    case None => q.place == p.place && !n.pc[a.t].Idle? && n.pc[a.t].op == op
    case Some(result) =>
      && n.pc[a.t].Idle?
      && match op
         case Push(b) => exists i, k :: q.place == p.place[b := InStack(i, k)]
         case Pop => q.place == if result == NULL then p.place else p.place[result := Held(a.t)]
  }

  lemma StoreEffect(s: State, p: Spec, a: Action)
    requires Matches(s, p) && Enabled(s, a) && WithinBound(s, a) && a.Store? && Succeeds(s, a)
    requires Replay(p, Events(s, a)).Some?
    ensures HasEffect(s, p, a)
  {
    var t, pc := a.t, s.pc[a.t];
    if pc.op.Pop? {
      PopReady(s, p, a);
      PopEffect(p, t, pc.i);
      ReplayTwo(p, Linearize(t), Respond(t, pc.cache.top));
    } else {
      assert ThreadOk(s, p, t);
      PushEffect(p, t, pc.i, pc.op.b);
    }
  }

  lemma OperationEffect(s: State, p: Spec, a: Action)
    requires Matches(s, p) && Enabled(s, a) && WithinBound(s, a) && (a.LoadCell? || a.RunLambda? || a.Store?)
    ensures Simulated(s, p, a)
    ensures |Apply(s, a).pc| == |s.pc| && |Apply(s, a).cells| == |s.cells|
    ensures forall t :: 0 <= t < |s.pc| && t != a.t ==> Apply(s, a).pc[t] == s.pc[t]
    ensures HasEffect(s, p, a)
  {
    StepSimulated(s, p, a);
    if a.Store? && Succeeds(s, a) {
      StoreEffect(s, p, a);
    } else {
      QuietEffect(s, p, a);
    }
  }

  lemma QuietEffect(s: State, p: Spec, a: Action)
    requires Matches(s, p) && Enabled(s, a) && (a.LoadCell? || a.RunLambda? || (a.Store? && !Succeeds(s, a)))
    requires Simulated(s, p, a)
    ensures Replay(p, Events(s, a)).value.place == p.place
  {
    assert ThreadOk(s, p, a.t);
    ReplayOne(p, Linearize(a.t));
    ReplayOne(p, Respond(a.t, NULL));
    if Events(s, a) == [Linearize(a.t)] {
      TopPlaced(s, p, s.pc[a.t].i);
    }
  }

  // ----- the invariant

  lemma OperateStep(w: World, a: Action)
    requires WInv(w) && WEnabled(w, Operate(a))
    ensures WInv(WApply(w, Operate(a)))
  {
    OperationEffect(w.s, w.p, a);
    HandsAfter(w, a);
    WorkersAfter(w, a);
  }

  /** All workers are where their threads are, the one that moved included. */
  lemma WorkersAfter(w: World, a: Action)
    requires WInv(w) && WEnabled(w, Operate(a))
    ensures var n := WApply(w, Operate(a));
            && |n.worker| == |n.next| == |n.s.pc| == |n.s.cells|
            && forall u :: 0 <= u < |n.worker| ==> WorkerFits(n, u)
  {
    var n, t := WApply(w, Operate(a)), a.t;
    OperationEffect(w.s, w.p, a);
    assert WorkerFits(w, t);
    NextStackExists(w.next[t], |w.next|);
    OneWorkerMoves(w, n, t);
  }

  lemma NextStackExists(next: nat, n: nat)
    requires n > 0
    ensures (next + 1) % n < n
  {
  }

  lemma HandsTake(place: map<Block, Place>, worker: seq<Worker>, t: Tid, b: Block)
    requires HandsMatch(place, worker) && t < |worker| && Hand(worker[t]) == {} && b in place && place[b].InStack?
    ensures HandsMatch(place[b := Held(t)], worker[t := Got(b)])
  {
  }

  lemma HandsGive(place: map<Block, Place>, worker: seq<Worker>, t: Tid, b: Block, i: nat, k: nat)
    requires HandsMatch(place, worker) && t < |worker| && worker[t] == Pushing(b)
    ensures HandsMatch(place[b := InStack(i, k)], worker[t := Inner])
  {
    assert b in Hand(worker[t]);
    var place', worker' := place[b := InStack(i, k)], worker[t := Inner];
    forall u, c | 0 <= u < |worker'| && c in Hand(worker'[u])
      ensures c in place' && place'[c] == Held(u)
    {
      assert c in Hand(worker[u]);
      assert place[c] == Held(u) && place[b] == Held(t);
    }
  }

  lemma HandsStay(place: map<Block, Place>, worker: seq<Worker>, t: Tid, next: Worker)
    requires HandsMatch(place, worker) && t < |worker| && Hand(next) == Hand(worker[t])
    ensures HandsMatch(place, worker[t := next])
  {
  }

  /** The moves of blocks are the moves of hands. */
  lemma HandsAfter(w: World, a: Action)
    requires WInv(w) && WEnabled(w, Operate(a))
    ensures HandsMatch(WApply(w, Operate(a)).p.place, WApply(w, Operate(a)).worker)
  {
    var t, place, q := a.t, w.p.place, Advance(w, a).p;
    OperationEffect(w.s, w.p, a);
    assert WorkerFits(w, t);
    match Response(w.s, a)
    case None =>
    case Some(result) =>
      if w.worker[t].Pushing? {
        var i, k :| q.place == place[w.worker[t].b := InStack(i, k)];
        HandsGive(place, w.worker, t, w.worker[t].b, i, k);
      } else if result == NULL {
        HandsStay(place, w.worker, t, Outer);
      } else {
        PoppedWasStacked(w, a);
        HandsTake(place, w.worker, t, result);
      }
  }

  /** A block that pop returns was in nobody's hands. */
  lemma PoppedWasStacked(w: World, a: Action)
    requires WInv(w) && WEnabled(w, Operate(a)) && w.s.pc[a.t].op.Pop?
    requires Response(w.s, a).Some? && Response(w.s, a).value != NULL
    ensures Response(w.s, a).value in w.p.place && w.p.place[Response(w.s, a).value].InStack?
  {
    assert ThreadOk(w.s, w.p, a.t);
    PopReady(w.s, w.p, a);
    TopPlaced(w.s, w.p, w.s.pc[a.t].i);
  }

  lemma CallStep(w: World, t: Tid, op: Op, i: nat)
    requires WInv(w) && t < |w.worker| && w.s.pc[t].Idle? && Enabled(w.s, Invoke(t, op, i))
    requires op.Push? ==> op.b != NULL && op.b in w.p.place && w.p.place[op.b] == Held(t)
    ensures var n := Advance(w, Invoke(t, op, i));
            && Matches(n.s, n.p) && n.p.place == w.p.place
            && |n.s.cells| == |w.s.cells| && n.s.pc == w.s.pc[t := Load(op, i)]
  {
    assert ThreadOk(w.s, w.p, t);
    ReplayOne(w.p, Called(t, op, i));
    StepSimulated(w.s, w.p, Invoke(t, op, i));
  }

  lemma EndStep(w: World)
    requires WInv(w)
    ensures WInv(w.(end := true))
  {
    var n := w.(end := true);
    forall u | 0 <= u < |n.worker|
      ensures WorkerFits(n, u)
    {
      assert WorkerFits(w, u);
    }
  }

  lemma PushCallStep(w: World, t: Tid)
    requires WInv(w) && WEnabled(w, StartPush(t))
    ensures WInv(WApply(w, StartPush(t)))
  {
    var n := WApply(w, StartPush(t));
    assert WorkerFits(w, t) && w.worker[t].b in Hand(w.worker[t]);
    CallStep(w, t, Push(w.worker[t].b), w.next[t]);
    HandsStay(w.p.place, w.worker, t, Pushing(w.worker[t].b));
    OneWorkerMoves(w, n, t);
  }

  lemma WorkerStep(w: World, a: WAction)
    requires WInv(w) && WEnabled(w, a)
    ensures WInv(WApply(w, a))
  {
    match a
    case EndTest => EndStep(w);
    case Operate(b) => OperateStep(w, b);
    case TestOuter(t) => FlagStep(w, a);
    case TestInner(t) =>
      if w.end {
        FlagStep(w, a);
      } else {
        PopCallStep(w, t);
      }
    case StartPush(t) => PushCallStep(w, t);
  }

  lemma FlagStep(w: World, a: WAction)
    requires WInv(w) && WEnabled(w, a) && (a.TestOuter? || (a.TestInner? && w.end))
    ensures WInv(WApply(w, a))
  {
    var n := WApply(w, a);
    assert WorkerFits(w, a.t);
    HandsStay(w.p.place, w.worker, a.t, n.worker[a.t]);
    OneWorkerMoves(w, n, a.t);
  }

  /** The call of pop. */
  lemma PopCallStep(w: World, t: Tid)
    requires WInv(w) && WEnabled(w, TestInner(t)) && !w.end
    ensures WInv(WApply(w, TestInner(t)))
  {
    var n := WApply(w, TestInner(t));
    assert WorkerFits(w, t);
    CallStep(w, t, Pop, t);
    HandsStay(w.p.place, w.worker, t, Popping);
    OneWorkerMoves(w, n, t);
  }

  /** It is enough to look at the worker that moves. */
  lemma OneWorkerMoves(w: World, n: World, t: Tid)
    requires t < |w.worker| == |w.next| == |w.s.pc| == |w.s.cells|
    requires |n.worker| == |n.next| == |n.s.pc| == |n.s.cells| == |w.worker|
    requires forall u :: 0 <= u < |w.worker| ==> WorkerFits(w, u)
    requires forall u :: 0 <= u < |w.worker| && u != t ==>
               n.worker[u] == w.worker[u] && n.next[u] == w.next[u] && n.s.pc[u] == w.s.pc[u]
    requires WorkerFits(n, t)
    ensures forall u :: 0 <= u < |n.worker| ==> WorkerFits(n, u)
  {
    forall u | 0 <= u < |n.worker|
      ensures WorkerFits(n, u)
    {
      assert WorkerFits(w, u);
    }
  }

  lemma {:induction false} WorkersKeepBlocks(w: World, acts: seq<WAction>)
    requires WInv(w) && WRuns(w, acts)
    ensures WInv(WAfter(w, acts)) && WAfter(w, acts).p.place.Keys == w.p.place.Keys
    decreases |acts|
  {
    if acts == [] {
    } else {
      WorkerStep(w, acts[0]);
      KeysKept(w, acts[0]);
      WorkersKeepBlocks(WApply(w, acts[0]), acts[1..]);
    }
  }

  lemma KeysKept(w: World, a: WAction)
    requires WInv(w) && WEnabled(w, a)
    ensures WApply(w, a).p.place.Keys == w.p.place.Keys
  {
    match a
    case Operate(b) =>
      OperationEffect(w.s, w.p, b);
      if Response(w.s, b).Some? {
        assert WorkerFits(w, b.t) && ThreadOk(w.s, w.p, b.t);
        if w.s.pc[b.t].op.Pop? && Response(w.s, b).value != NULL {
          PoppedWasStacked(w, b);
        }
      }
    case StartPush(t) =>
      assert WorkerFits(w, t) && w.worker[t].b in Hand(w.worker[t]);
      CallStep(w, t, Push(w.worker[t].b), w.next[t]);
    case TestInner(t) =>
      assert WorkerFits(w, t);
      if !w.end {
        CallStep(w, t, Pop, t);
      }
    case _ =>
  }

  // ----- conservation

  /** Conservation: at every moment of the test each of its blocks is on exactly one stack, once,
      and in nobody's hand, or in the hand of exactly one worker; a finished worker holds none. */
  lemma BlocksAreConserved(w: World, acts: seq<WAction>)
    requires WStart(w) && WRuns(w, acts)
    ensures WAfter(w, acts).p.place.Keys == w.p.place.Keys && Conserved(WAfter(w, acts))
  {
    StartHolds(w);
    WorkersKeepBlocks(w, acts);
    InvConserves(WAfter(w, acts));
  }

  ghost predicate Conserved(n: World) {
    && Placed(n.p.stacks, n.p.place)
    && (forall b :: b in n.p.place ==> PlacedOrInHand(n.p.place, n.worker, b))
    && (forall t, b :: 0 <= t < |n.worker| && n.worker[t] == Finished && b in n.p.place ==> n.p.place[b] != Held(t))
  }

  /** On a stack and in nobody's hand, or in the hand of exactly one worker. */
  ghost predicate PlacedOrInHand(place: map<Block, Place>, worker: seq<Worker>, b: Block)
    requires b in place
  {
    match place[b]
    case InStack(_, _) => forall t :: 0 <= t < |worker| ==> b !in Hand(worker[t])
    case Held(u) => u < |worker| && forall t :: 0 <= t < |worker| ==> (b in Hand(worker[t]) <==> t == u)
  }

  lemma HandsPartition(place: map<Block, Place>, worker: seq<Worker>)
    requires HandsMatch(place, worker)
    ensures forall b :: b in place ==> PlacedOrInHand(place, worker, b)
    ensures forall t, b :: 0 <= t < |worker| && worker[t] == Finished && b in place ==> place[b] != Held(t)
  {
    forall b | b in place
      ensures PlacedOrInHand(place, worker, b)
    {
    }
  }

  lemma InvConserves(n: World)
    requires WInv(n)
    ensures Conserved(n)
  {
    HandsPartition(n.p.place, n.worker);
  }

  lemma NobodyHolds(place: map<Block, Place>, worker: seq<Worker>)
    requires forall t :: 0 <= t < |worker| ==> worker[t] == Outer
    requires forall b :: b in place ==> place[b].InStack?
    ensures HandsMatch(place, worker)
  {
    assert forall t :: 0 <= t < |worker| ==> Hand(worker[t]) == {};
  }

  lemma StartHolds(w: World)
    requires WStart(w)
    ensures WInv(w)
  {
    NobodyHolds(w.p.place, w.worker);
    forall t | 0 <= t < |w.worker|
      ensures WorkerFits(w, t)
    {
      assert w.worker[t] == Outer && w.next[t] == 0 && w.s.pc[t] == Idle;
    }
  }

  // ----- counting

  lemma {:induction false} ReversedMembers(stack: seq<Block>)
    ensures |Reversed(stack)| == |stack|
    ensures forall b :: b in Reversed(stack) <==> b in stack
    ensures NoRepeats(stack) ==> NoRepeats(Reversed(stack))
  {
    if stack == [] {
    } else {
      var rest := stack[..|stack| - 1];
      ReversedMembers(rest);
      assert stack == rest + [stack[|stack| - 1]];
      if NoRepeats(stack) {
        assert NoRepeats(rest);
        NoRepeatsConcat([stack[|stack| - 1]], Reversed(rest));
      }
    }
  }

  lemma NoRepeatsConcat(xs: seq<Block>, ys: seq<Block>)
    requires NoRepeats(xs) && NoRepeats(ys) && forall b :: b in xs ==> b !in ys
    ensures NoRepeats(xs + ys)
  {
    forall j, k | 0 <= j < k < |xs + ys|
      ensures (xs + ys)[j] != (xs + ys)[k]
    {
      if j < |xs| <= k {
        assert xs[j] in xs && ys[k - |xs|] in ys;
      }
    }
  }

  lemma {:induction false} DrainedMembers(q: Spec, n: nat)
    requires Placed(q.stacks, q.place) && n <= |q.stacks|
    ensures NoRepeats(Drained(q.stacks, n))
    ensures forall b :: b in Drained(q.stacks, n) <==> b in q.place && q.place[b].InStack? && q.place[b].i < n
  {
    if n == 0 {
    } else {
      DrainedMembers(q, n - 1);
      StackedOnce(q);
      ReversedMembers(q.stacks[n - 1]);
      NoRepeatsConcat(Drained(q.stacks, n - 1), Reversed(q.stacks[n - 1]));
    }
  }

  lemma {:induction false} LengthIsSize(bs: seq<Block>, s: set<Block>)
    requires NoRepeats(bs) && forall b :: b in bs <==> b in s
    ensures |bs| == |s|
    decreases |bs|
  {
    if bs == [] {
      assert s == {};
    } else {
      var rest := bs[..|bs| - 1];
      assert bs == rest + [bs[|bs| - 1]];
      LengthIsSize(rest, s - {bs[|bs| - 1]});
    }
  }

  /** The test's check: once all workers have finished, draining the stacks returns each of the
      blocks exactly once, so the count equals the number of blocks pushed at the beginning. */
  lemma DrainReturnsEveryBlock(w: World, acts: seq<WAction>)
    requires WStart(w) && WRuns(w, acts)
    requires var n := WAfter(w, acts); forall t :: 0 <= t < |n.worker| ==> n.worker[t] == Finished
    ensures var n := WAfter(w, acts);
            var drained := Drained(n.p.stacks, |n.p.stacks|);
            && NoRepeats(drained)
            && (forall b :: b in drained <==> b in w.p.place)
            && |drained| == |w.p.place.Keys|
            && forall t :: 0 <= t < |n.s.pc| ==> n.s.pc[t].Idle?
  {
    StartHolds(w);
    WorkersKeepBlocks(w, acts);
    AllDrained(WAfter(w, acts));
  }

  /** The end of the test: the loop that drains the stacks, run on the stacks as the workers have
      left them. It collects each of the blocks exactly once. */
  method DrainAfterWorkers(n: World, ghost w: World, ghost acts: seq<WAction>) returns (popped: seq<Block>)
    requires WStart(w) && WRuns(w, acts) && n == WAfter(w, acts)
    requires forall t :: 0 <= t < |n.worker| ==> n.worker[t] == Finished
    ensures NoRepeats(popped)
    ensures forall b :: b in popped <==> b in w.p.place
    ensures |popped| == |w.p.place.Keys|
  {
    DrainReturnsEveryBlock(w, acts);
    StartHolds(w);
    WorkersKeepBlocks(w, acts);
    if |n.s.pc| == 0 {
      return [];
    }
    var stacks := new Stacks.Resumed(n.s, n.p);
    popped := stacks.Drain(0);
  }

  lemma AllDrained(n: World)
    requires WInv(n) && forall t :: 0 <= t < |n.worker| ==> n.worker[t] == Finished
    ensures var drained := Drained(n.p.stacks, |n.p.stacks|);
            && NoRepeats(drained)
            && (forall b :: b in drained <==> b in n.p.place)
            && |drained| == |n.p.place.Keys|
    ensures forall t :: 0 <= t < |n.s.pc| ==> n.s.pc[t].Idle?
  {
    DrainedMembers(n.p, |n.p.stacks|);
    assert forall b :: b in n.p.place ==> n.p.place[b].InStack? && n.p.place[b].i < |n.p.stacks|;
    LengthIsSize(Drained(n.p.stacks, |n.p.stacks|), n.p.place.Keys);
    forall t | 0 <= t < |n.s.pc|
      ensures n.s.pc[t].Idle?
    {
      assert WorkerFits(n, t);
    }
  }

  // ----- the loops of a worker

  /** The stack of the operation that thread `t` is in. */
  function TargetOf(s: State, t: Tid): nat
    requires t < |s.pc| && !s.pc[t].Idle?
  {
    s.pc[t].i
  }

  /** The stacks onto which worker `t` pushes in a run, in order: those of the calls themselves. */
  function PushedTo(w: World, acts: seq<WAction>, t: Tid): seq<nat>
    requires WRuns(w, acts)
    decreases |acts|
  {
    if acts == [] then []
    else
      var n := WApply(w, acts[0]);
      (if acts[0] == StartPush(t) && t < |n.s.pc| && !n.s.pc[t].Idle? then [TargetOf(n.s, t)] else [])
      + PushedTo(n, acts[1..], t)
  }

  /** Where a worker's `push_thread` is when it has begun `c` pushes. */
  predicate InTurn(w: World, t: Tid, c: nat) {
    && t < |w.worker| == |w.next|
    && if w.worker[t].Pushing? then c > 0 && w.next[t] == (c - 1) % |w.next| else w.next[t] == c % |w.next|
  }

  lemma TurnAtPush(w: World, t: Tid, c: nat)
    requires WInv(w) && WEnabled(w, StartPush(t)) && InTurn(w, t, c)
    ensures InTurn(WApply(w, StartPush(t)), t, c + 1)
    ensures var n := WApply(w, StartPush(t));
            |n.next| == |w.next| && t < |n.s.pc| && !n.s.pc[t].Idle? && TargetOf(n.s, t) == c % |w.next| && n.s.pc[t].op.Push?
  {
    assert WorkerFits(w, t) && w.worker[t].b in Hand(w.worker[t]);
    CallStep(w, t, Push(w.worker[t].b), w.next[t]);
  }

  lemma TurnStays(w: World, a: WAction, t: Tid, c: nat)
    requires WEnabled(w, a) && InTurn(w, t, c) && a != StartPush(t)
    ensures |WApply(w, a).next| == |w.next| && InTurn(WApply(w, a), t, c)
  {
    hide Enabled, Apply, Events, Replay, WithinBound, Succeeds;
    if a.Operate? {
      TurnOperates(w, a.a, t, c);
    }
  }

  lemma TurnOperates(w: World, b: Action, t: Tid, c: nat)
    requires WEnabled(w, Operate(b)) && InTurn(w, t, c)
    ensures |WApply(w, Operate(b)).next| == |w.next| && InTurn(WApply(w, Operate(b)), t, c)
  {
    hide Enabled, Apply, Events, Replay, WithinBound, Succeeds;
    if b.t == t && w.worker[t].Pushing? {
      ModSuccessor(c - 1, |w.next|);
    }
  }

  /** `m` numbers in turn, modulo `n`, from `c` on. */
  function Turns(c: nat, n: nat, m: nat): seq<nat>
    requires n > 0
    decreases m
  {
    if m == 0 then [] else [c % n] + Turns(c + 1, n, m - 1)
  }

  lemma {:induction false} TurnsAt(c: nat, n: nat, m: nat, k: nat)
    requires n > 0 && k < m
    ensures |Turns(c, n, m)| == m && Turns(c, n, m)[k] == (c + k) % n
    decreases m
  {
    if m == 1 {
      assert Turns(c + 1, n, 0) == [];
    } else if k == 0 {
      TurnsAt(c + 1, n, m - 1, 0);
    } else {
      TurnsAt(c + 1, n, m - 1, k - 1);
    }
  }

  function IsPushOf(t: Tid): WAction -> bool {
    (a: WAction) => a == StartPush(t)
  }

  lemma HasStacks(w: World, t: Tid, c: nat)
    requires InTurn(w, t, c)
    ensures |w.next| > 0
  {
  }

  lemma PushedNext(w: World, acts: seq<WAction>, t: Tid)
    requires WRuns(w, acts) && acts != []
    ensures WEnabled(w, acts[0]) && WRuns(WApply(w, acts[0]), acts[1..])
    ensures acts[0] != StartPush(t) ==>
              && PushedTo(w, acts, t) == PushedTo(WApply(w, acts[0]), acts[1..], t)
              && Count(IsPushOf(t), acts) == Count(IsPushOf(t), acts[1..])
    ensures acts[0] == StartPush(t) ==>
              && Count(IsPushOf(t), acts) == 1 + Count(IsPushOf(t), acts[1..])
              && var n := WApply(w, acts[0]);
                 t < |n.s.pc| && !n.s.pc[t].Idle? ==>
                   PushedTo(w, acts, t) == [TargetOf(n.s, t)] + PushedTo(n, acts[1..], t)
  {
    hide WEnabled, WApply;
    assert [] + PushedTo(WApply(w, acts[0]), acts[1..], t) == PushedTo(WApply(w, acts[0]), acts[1..], t);
  }

  lemma {:induction false} PushesInTurn(w: World, acts: seq<WAction>, t: Tid, c: nat)
    requires WInv(w) && WRuns(w, acts) && InTurn(w, t, c)
    ensures |w.next| > 0 && PushedTo(w, acts, t) == Turns(c, |w.next|, Count(IsPushOf(t), acts))
    decreases |acts|
  {
    HasStacks(w, t, c);
    if acts == [] {
    } else {
      PushedNext(w, acts, t);
      hide WInv, WRuns, WEnabled, WApply, InTurn, PushedTo, Count;
      WorkerStep(w, acts[0]);
      if acts[0] == StartPush(t) {
        TurnAtPush(w, t, c);
        PushesInTurn(WApply(w, acts[0]), acts[1..], t, c + 1);
      } else {
        TurnStays(w, acts[0], t, c);
        PushesInTurn(WApply(w, acts[0]), acts[1..], t, c);
      }
    }
  }

  /** Every worker pushes onto the stacks in turn: from the start of the test its k-th push goes to
      stack k modulo their number. */
  lemma PushesGoRound(w: World, acts: seq<WAction>, t: Tid, k: nat)
    requires WStart(w) && WRuns(w, acts) && t < |w.worker| && k < Count(IsPushOf(t), acts)
    ensures |PushedTo(w, acts, t)| == Count(IsPushOf(t), acts)
    ensures PushedTo(w, acts, t)[k] == k % |w.next|
  {
    StartHolds(w);
    assert w.worker[t] == Outer && w.next[t] == 0;
    PushesInTurn(w, acts, t, 0);
    TurnsAt(0, |w.next|, Count(IsPushOf(t), acts), k);
  }

  lemma FlagAfter(w: World, a: WAction)
    requires WEnabled(w, a)
    ensures WApply(w, a).end <==> w.end || a == EndTest
  {
  }

  /** The flag is set by the main thread only, and then stays. */
  lemma {:induction false} FlagIsSetOnce(w: World, acts: seq<WAction>)
    requires WRuns(w, acts)
    ensures WAfter(w, acts).end <==> w.end || EndTest in acts
    decreases |acts|
  {
    hide WEnabled, WApply;
    if acts == [] {
    } else {
      FlagAfter(w, acts[0]);
      FlagIsSetOnce(WApply(w, acts[0]), acts[1..]);
      assert EndTest in acts <==> acts[0] == EndTest || EndTest in acts[1..];
    }
  }

  /** Both loops test the flag: a worker finishes exactly at the test of the outer loop with the
      flag set, and the inner loop calls pop exactly while it is not. A pop leads out of the inner
      loop or to a push, and a push back to it. */
  lemma FlagLaw(w: World, a: WAction, t: Tid)
    requires WInv(w) && WEnabled(w, a) && t < |w.worker|
    ensures var n := WApply(w, a);
            && |n.worker| == |w.worker|
            && (n.worker[t] == Finished <==> w.worker[t] == Finished || (a == TestOuter(t) && w.end))
            && (n.worker[t] == Popping && w.worker[t] != Popping <==> a == TestInner(t) && !w.end)
            && (a == TestOuter(t) && !w.end ==> n.worker[t] == Inner)
            && (a == TestInner(t) && w.end ==> n.worker[t] == Outer)
            && (w.worker[t] == Popping && n.worker[t] != Popping ==> n.worker[t] == Outer || n.worker[t].Got?)
            && (w.worker[t].Pushing? && !n.worker[t].Pushing? ==> n.worker[t] == Inner)
  {
  }

  /** So nobody finishes before the flag is set, and nobody calls pop afterwards. */
  lemma {:induction false} FlagStopsWorkers(w: World, acts: seq<WAction>, t: Tid)
    requires WInv(w) && WRuns(w, acts) && t < |w.worker|
    ensures var n := WAfter(w, acts);
            && |n.worker| == |w.worker|
            && (n.worker[t] == Finished && w.worker[t] != Finished ==> n.end)
            && (w.end && n.worker[t] == Popping ==> w.worker[t] == Popping)
            && (w.worker[t] == Finished ==> n.worker[t] == Finished)
    decreases |acts|
  {
    if acts == [] {
    } else {
      WorkerStep(w, acts[0]);
      FlagLaw(w, acts[0], t);
      FlagStopsWorkers(WApply(w, acts[0]), acts[1..], t);
      FlagIsSetOnce(WApply(w, acts[0]), acts[1..]);
    }
  }

  /** Every worker that has not finished can go on: it can test the flag, push what it has got, or
      take a step of its operation, unless that is a swap of a pop beyond the bound. */
  lemma NobodyIsStuck(w: World, t: Tid)
    requires WInv(w) && t < |w.worker| && w.worker[t] != Finished
    ensures match w.worker[t]
            case Outer => WEnabled(w, TestOuter(t))
            case Inner => WEnabled(w, TestInner(t))
            case Got(_) => WEnabled(w, StartPush(t))
            case _ =>
              && t < |w.s.pc| && !w.s.pc[t].Idle? && |w.p.calls| == |w.s.pc|
              && match w.s.pc[t]
                 case Load(_, _) => WEnabled(w, Operate(LoadCell(t)))
                 case Ready(_, _, _, _) => exists r :: WEnabled(w, Operate(RunLambda(t, r)))
                 case Commit(_, _, _, _, _) =>
                   WEnabled(w, Operate(Store(t, false))) <==> WithinBound(w.s, Store(t, false))
                 case Idle => false
    ensures WEnabled(w, EndTest)
  {
    assert WorkerFits(w, t) && ThreadOk(w.s, w.p, t);
    match w.worker[t]
    case Outer =>
    case Inner =>
    case Got(b) => assert b in Hand(w.worker[t]);
    case Finished =>
    case Popping => OperationGoesOn(w, t);
    case Pushing(_) => OperationGoesOn(w, t);
  }

  lemma OperationGoesOn(w: World, t: Tid)
    requires WInv(w) && t < |w.worker| && (w.worker[t].Popping? || w.worker[t].Pushing?)
    ensures match w.s.pc[t]
            case Load(_, _) => WEnabled(w, Operate(LoadCell(t)))
            case Ready(_, _, _, _) => exists r :: WEnabled(w, Operate(RunLambda(t, r)))
            case Commit(_, _, _, _, _) =>
              WEnabled(w, Operate(Store(t, false))) <==> WithinBound(w.s, Store(t, false))
            case Idle => false
  {
    assert WorkerFits(w, t) && ThreadOk(w.s, w.p, t);
    if w.s.pc[t].Ready? {
      TopPlaced(w.s, w.p, w.s.pc[t].i);
      var me := w.s.pc[t];
      var r := if me.cache.top in w.s.mem then w.s.mem[me.cache.top] else NULL;
      assert WEnabled(w, Operate(RunLambda(t, r)));
    }
  }

  // ----- the beginning of the test

  /** Blocks 1 to `count`, as many as were allocated, all in the hands of thread 0. */
  function Allocated(count: nat): (place: map<Block, Place>)
    ensures forall b :: b in place <==> 1 <= b <= count
    ensures forall b :: b in place ==> place[b] == Held(0)
  {
    if count == 0 then map[] else Allocated(count - 1)[count := Held(0)]
  }

  lemma {:induction false} AllocatedCount(count: nat)
    ensures |Allocated(count).Keys| == count
    decreases count
  {
    if count == 0 {
    } else {
      AllocatedCount(count - 1);
      assert Allocated(count).Keys == Allocated(count - 1).Keys + {count};
    }
  }

  lemma RoomLeft(i: nat, j: nat, n: nat, perStack: nat)
    requires i < n && j < perStack
    ensures i * perStack + j < n * perStack
  {
    assert (n - i) * perStack >= perStack by {
      MultipleIsBig(perStack, n - i);
    }
    assert n * perStack == i * perStack + (n - i) * perStack;
  }

  /** How far the filling of the stacks is: `next` is the block to be pushed next. */
  ghost predicate Filled(p: Spec, n: nat, perStack: nat, i: nat, j: nat, next: nat) {
    && |p.stacks| == n
    && p.place.Keys == Allocated(n * perStack).Keys
    && (forall b :: b in p.place ==> if b < next then p.place[b].InStack? else p.place[b] == Held(0))
    && (forall k :: 0 <= k < n ==> |p.stacks[k]| == if k < i then perStack else if k == i then j else 0)
  }

  lemma FilledMore(p: Spec, q: Spec, n: nat, perStack: nat, i: nat, j: nat, next: nat)
    requires Filled(p, n, perStack, i, j, next) && i < n && next in p.place
    requires q.stacks == p.stacks[i := p.stacks[i] + [next]] && q.place == p.place[next := InStack(i, |p.stacks[i]|)]
    ensures Filled(q, n, perStack, i, j + 1, next + 1)
  {
  }

  lemma NextHeld(p: Spec, n: nat, perStack: nat, i: nat, j: nat, next: nat)
    requires Filled(p, n, perStack, i, j, next) && i < n && j < perStack && next == 1 + i * perStack + j
    ensures next in p.place && p.place[next] == Held(0)
  {
    RoomLeft(i, j, n, perStack);
    assert next in Allocated(n * perStack).Keys;
  }

  lemma FilledNextStack(p: Spec, n: nat, perStack: nat, i: nat, next: nat)
    requires Filled(p, n, perStack, i, perStack, next)
    ensures Filled(p, n, perStack, i + 1, 0, next)
  {
  }

  lemma FilledAll(p: Spec, n: nat, perStack: nat, next: nat)
    requires Filled(p, n, perStack, n, 0, next) && next == 1 + n * perStack
    ensures forall b :: b in p.place ==> p.place[b].InStack?
    ensures |p.place.Keys| == n * perStack
    ensures forall k :: 0 <= k < n ==> |p.stacks[k]| == perStack
  {
    AllocatedCount(n * perStack);
    assert forall b :: b in p.place ==> b in Allocated(n * perStack).Keys;
  }

  lemma FilledStarts(platform: Platform, place: map<Block, Place>, n: nat, perStack: nat)
    requires place == Allocated(n * perStack)
    ensures Filled(InitSpec(place, n, n), n, perStack, 0, 0, 1)
  {
  }

  /** The filling loops: `perStack` blocks onto each of the stacks. What they leave is a start of
      the workers. */
  method Fill(platform: Platform, n: nat, perStack: nat) returns (w: World)
    ensures WStart(w) && |w.worker| == n && w.s.platform == platform && !w.end
    ensures |w.p.stacks| == n && forall i :: 0 <= i < n ==> |w.p.stacks[i]| == perStack
    ensures |w.p.place.Keys| == n * perStack
  {
    hide Stacks.Valid, Filled, Stacks.View;
    var stacks := NewStacks(platform, n, perStack);
    var i, next := 0, 1;
    while i < n
      invariant i <= n && next == 1 + i * perStack && fresh(stacks) && stacks.platform == platform
      invariant stacks.Valid() && stacks.pc == seq(n, _ => Idle) && |stacks.cells| == n
      invariant Filled(stacks.spec, n, perStack, i, 0, next)
    {
      next := FillOne(stacks, n, perStack, i, next);
      i := i + 1;
    }
    FilledAll(stacks.spec, n, perStack, next);
    w := StartOf(stacks, n);
  }

  method NewStacks(platform: Platform, n: nat, perStack: nat) returns (stacks: Stacks)
    ensures fresh(stacks) && stacks.platform == platform
    ensures stacks.Valid() && stacks.pc == seq(n, _ => Idle) && |stacks.cells| == n
    ensures Filled(stacks.spec, n, perStack, 0, 0, 1)
  {
    hide Stacks.Valid, Filled, Stacks.View;
    var place := Allocated(n * perStack);
    var mem := map b | b in place :: NULL;
    stacks := new Stacks(platform, mem, place, n, n);
    FilledStarts(platform, place, n, perStack);
  }

  method StartOf(stacks: Stacks, n: nat) returns (w: World)
    requires stacks.Valid() && stacks.pc == seq(n, _ => Idle) && |stacks.cells| == n
    requires forall b :: b in stacks.spec.place ==> stacks.spec.place[b].InStack?
    ensures WStart(w) && |w.worker| == n && w.s.platform == stacks.platform && !w.end && w.p == stacks.spec
    ensures |w.p.stacks| == n
  {
    hide Ends;
    w := World(stacks.View(), stacks.spec, seq(n, _ => Outer), seq(n, _ => 0), false);
  }

  method FillOne(stacks: Stacks, n: nat, perStack: nat, i: nat, first: nat) returns (next: nat)
    requires i < n && first == 1 + i * perStack && Filled(stacks.spec, n, perStack, i, 0, first)
    requires stacks.Valid() && stacks.pc == seq(n, _ => Idle) && |stacks.cells| == n
    modifies stacks
    ensures next == 1 + (i + 1) * perStack && Filled(stacks.spec, n, perStack, i + 1, 0, next)
    ensures stacks.Valid() && stacks.pc == seq(n, _ => Idle) && |stacks.cells| == n
  {
    hide Stacks.Valid, Filled, Stacks.View;
    next := first;
    var j := 0;
    while j < perStack
      invariant j <= perStack && next == first + j
      invariant stacks.Valid() && stacks.pc == seq(n, _ => Idle) && |stacks.cells| == n
      invariant Filled(stacks.spec, n, perStack, i, j, next)
    {
      ghost var p := stacks.spec;
      NextHeld(p, n, perStack, i, j, next);
      var _ := stacks.Push(0, i, next);
      FilledMore(p, stacks.spec, n, perStack, i, j, next);
      next, j := next + 1, j + 1;
    }
    FilledNextStack(stacks.spec, n, perStack, i, next);
  }

  /** The whole test: fill, let the workers run, drain. With any schedule of the workers, if they have
      all finished, as many blocks come out as went in, each of them once. */
  method WholeTest(platform: Platform, n: nat, perStack: nat, schedule: seq<WAction>) returns (expected: nat, counted: nat, joined: bool)
    ensures joined ==> expected == counted == n * perStack
  {
    var w := Fill(platform, n, perStack);
    expected, counted := n * perStack, 0;
    var now := w;
    ghost var done: seq<WAction> := [];
    for k := 0 to |schedule|
      invariant WRuns(w, done) && now == WAfter(w, done)
    {
      if WEnabled(now, schedule[k]) {
        WRunsMore(w, done, schedule[k]);
        done := done + [schedule[k]];
        now := WApply(now, schedule[k]);
      }
    }
    joined := forall t :: 0 <= t < |now.worker| ==> now.worker[t] == Finished;
    if joined {
      var popped := DrainAfterWorkers(now, w, done);
      counted := |popped|;
    }
  }

  lemma {:induction false} WRunsMore(w: World, acts: seq<WAction>, a: WAction)
    requires WRuns(w, acts) && WEnabled(WAfter(w, acts), a)
    ensures WRuns(w, acts + [a]) && WAfter(w, acts + [a]) == WApply(WAfter(w, acts), a)
    decreases |acts|
  {
    if acts == [] {
      assert [] + [a] == [a] && [a][1..] == [];
    } else {
      assert (acts + [a])[0] == acts[0] && (acts + [a])[1..] == acts[1..] + [a];
      WRunsMore(WApply(w, acts[0]), acts[1..], a);
    }
  }
}
