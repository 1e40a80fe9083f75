// The simulation proof: every step of every thread keeps the shape of the stacks and is one of
// the specification's steps, whatever a stale pop reads.

module StackRefinement {
  import opened Common
  import opened Platforms
  import opened StackModel
  import opened StackAtomic

  // ----- memory

  /** Writing a block that is in nobody's stack leaves all chains as they are. */
  lemma WriteKeepsShape(s: State, p: Spec, b: Block, w: Word)
    requires Shape(s, p) && b in p.place && p.place[b].Held?
    ensures Shape(s.(mem := s.mem[b := w]), p)
  {
  }

  lemma PushKeepsPlaced(p: Spec, t: Tid, i: nat, b: Block)
    requires Placed(p.stacks, p.place) && i < |p.stacks| && b in p.place && p.place[b] == Held(t)
    ensures Placed(p.stacks[i := p.stacks[i] + [b]], p.place[b := InStack(i, |p.stacks[i]|)])
  {
  }

  lemma PushKeepsLinked(mem: map<Block, Word>, cells: seq<Cell>, stacks: seq<seq<Block>>, i: nat, b: Block, cell: Cell)
    requires Linked(mem, cells, stacks) && i < |stacks|
    requires b in mem && mem[b] == cells[i].top && cell.top == b
    ensures Linked(mem, cells[i := cell], stacks[i := stacks[i] + [b]])
  {
  }

  lemma PopKeepsPlaced(p: Spec, t: Tid, i: nat)
    requires Placed(p.stacks, p.place) && i < |p.stacks| && p.stacks[i] != []
    ensures var stack := p.stacks[i];
            Placed(p.stacks[i := stack[..|stack| - 1]], p.place[TopOf(stack) := Held(t)])
  {
    var stack := p.stacks[i];
    assert TopOf(stack) == stack[|stack| - 1];
    assert p.place[TopOf(stack)] == InStack(i, |stack| - 1);
  }

  lemma PopKeepsLinked(mem: map<Block, Word>, cells: seq<Cell>, stacks: seq<seq<Block>>, i: nat, cell: Cell)
    requires Linked(mem, cells, stacks) && i < |stacks| && stacks[i] != []
    requires cell.top == mem[cells[i].top]
    ensures var stack := stacks[i];
            Linked(mem, cells[i := cell], stacks[i := stack[..|stack| - 1]])
  {
    var stack := stacks[i];
    assert cells[i].top == stack[|stack| - 1];
    assert mem[stack[|stack| - 1]] == Below(stack, |stack| - 1);
  }

  // ----- threads

  /** What the step of another thread leaves to thread `t`. */
  ghost predicate Undisturbed(s: State, p: Spec, s': State, p': Spec, t: Tid) {
    && Sized(s) && Sized(s') && |s'.cells| == |s.cells| && s'.platform == s.platform
    && t < |s.pc| == |s'.pc| && t < |p.calls| == |p'.calls|
    && s'.pc[t] == s.pc[t] && p'.calls[t] == p.calls[t]
    && (forall i :: 0 <= i < |s.cells| ==>
          && s.versions[i] <= s'.versions[i]
          && (s'.versions[i] == s.versions[i] ==>
                && s'.cells[i] == s.cells[i]
                && (s.cells[i].top in s.mem ==> s.cells[i].top in s'.mem && s'.mem[s.cells[i].top] == s.mem[s.cells[i].top]))
          && (t in s'.monitors[i] ==> t in s.monitors[i] && s'.versions[i] == s.versions[i]))
    && (forall b :: b in p.place && p.place[b] == Held(t) ==>
          && b in p'.place && p'.place[b] == Held(t)
          && (b in s.mem ==> b in s'.mem && s'.mem[b] == s.mem[b]))
  }

  lemma OthersStayOk(s: State, p: Spec, s': State, p': Spec, t: Tid)
    requires Undisturbed(s, p, s', p', t) && ThreadOk(s, p, t)
    ensures ThreadOk(s', p', t)
  {
  }

  // ----- one step

  lemma ReplayOne(p: Spec, e: Event)
    ensures Replay(p, [e]) == SpecStep(p, e)
  {
    if SpecStep(p, e).Some? {
      assert Replay(SpecStep(p, e).value, [e][1..]) == SpecStep(p, e);
    }
  }

  lemma ReplayTwo(p: Spec, e: Event, f: Event)
    requires SpecStep(p, e).Some?
    ensures Replay(p, [e, f]) == SpecStep(SpecStep(p, e).value, f)
  {
    assert [e, f][1..] == [f];
    ReplayOne(SpecStep(p, e).value, f);
  }

  ghost predicate Simulated(s: State, p: Spec, a: Action)
    requires Enabled(s, a)
  {
    var next := Replay(p, Events(s, a));
    next.Some? && Matches(Apply(s, a), next.value)
  }

  /** A top that is not null is the top block of its stack; null means the stack is empty. */
  lemma TopPlaced(s: State, p: Spec, i: nat)
    requires Shape(s, p) && i < |s.cells|
    ensures s.cells[i].top == NULL <==> p.stacks[i] == []
    ensures s.cells[i].top in s.mem <==> p.stacks[i] != []
    ensures p.stacks[i] != [] ==> p.place[s.cells[i].top] == InStack(i, |p.stacks[i]| - 1)
    ensures p.stacks[i] != [] ==> s.mem[s.cells[i].top] == Below(p.stacks[i], |p.stacks[i]| - 1)
  {
    if p.stacks[i] != [] {
      assert p.stacks[i][|p.stacks[i]| - 1] in p.place;
    }
  }

  lemma TopsPlaced(s: State, p: Spec)
    requires Shape(s, p)
    ensures forall i :: 0 <= i < |s.cells| ==>
              (s.cells[i].top in s.mem ==> s.cells[i].top in p.place && p.place[s.cells[i].top].InStack?)
  {
    forall i | 0 <= i < |s.cells| && s.cells[i].top in s.mem
      ensures s.cells[i].top in p.place && p.place[s.cells[i].top].InStack?
    {
      TopPlaced(s, p, i);
    }
  }

  /** It is enough to look at the thread that moves. */
  lemma OneThreadMoves(s: State, p: Spec, s': State, p': Spec, t: Tid)
    requires Threads(s, p) && |s'.pc| == |s.pc| && |p'.calls| == |p.calls|
    requires t < |s.pc| && ThreadOk(s', p', t)
    requires forall u :: 0 <= u < |s.pc| && u != t ==> Undisturbed(s, p, s', p', u)
    ensures Threads(s', p')
  {
    forall u | 0 <= u < |s.pc|
      ensures ThreadOk(s', p', u)
    {
      if u != t {
        OthersStayOk(s, p, s', p', u);
      }
    }
  }

  lemma ScribbleStep(s: State, p: Spec, a: Action)
    requires Matches(s, p) && Enabled(s, a) && a.Scribble? && Lawful(p, Events(s, a)[0])
    ensures Simulated(s, p, a)
  {
    assert ThreadOk(s, p, a.t);
    ReplayOne(p, Written(a.t, a.b));
    WriteKeepsShape(s, p, a.b, a.w);
    TopsPlaced(s, p);
    OneThreadMoves(s, p, Apply(s, a), p, a.t);
  }

  /** A block may change hands: it stays out of all stacks. */
  lemma GiveKeepsShape(s: State, p: Spec, b: Block, u: Tid)
    requires Shape(s, p) && b in p.place && p.place[b].Held?
    ensures Shape(s, p.(place := p.place[b := Held(u)]))
  {
  }

  lemma GiveDisturbsNobody(s: State, p: Spec, q: Spec, t: Tid, u: Tid, b: Block)
    requires Sized(s) && t < |s.pc| == |p.calls| && b in p.place && p.place[b] == Held(t)
    requires q == p.(place := p.place[b := Held(u)])
    ensures forall v :: 0 <= v < |s.pc| && v != t ==> Undisturbed(s, p, s, q, v)
  {
  }

  lemma GiveStep(s: State, p: Spec, a: Action)
    requires Matches(s, p) && Enabled(s, a) && a.Give? && Lawful(p, Events(s, a)[0])
    ensures Simulated(s, p, a)
  {
    assert ThreadOk(s, p, a.t);
    ReplayOne(p, Given(a.t, a.u, a.b));
    GiveKeepsShape(s, p, a.b, a.u);
    var q := p.(place := p.place[a.b := Held(a.u)]);
    GiveDisturbsNobody(s, p, q, a.t, a.u, a.b);
    OneThreadMoves(s, p, s, q, a.t);
  }

  lemma InvokeStep(s: State, p: Spec, a: Action)
    requires Matches(s, p) && Enabled(s, a) && a.Invoke? && Lawful(p, Events(s, a)[0])
    ensures Simulated(s, p, a)
  {
    assert ThreadOk(s, p, a.t);
    ReplayOne(p, Events(s, a)[0]);
    if a.op != Push(NULL) {
      OneThreadMoves(s, p, Apply(s, a), SpecStep(p, Called(a.t, a.op, a.i)).value, a.t);
    }
  }

  /** Loading the cell; a pop that loads null has seen its stack empty. */
  lemma LoadStep(s: State, p: Spec, t: Tid, op: Op, i: nat)
    requires Matches(s, p) && t < |s.pc| && i < |s.cells|
    requires p.calls[t] == Pending(op, i) && KeepsBlock(p, t, op)
    ensures var es := if op.Pop? && s.cells[i].top == NULL then [Linearize(t)] else [];
            var next := Replay(p, es);
            next.Some? && Matches(Loaded(s, t, op, i), next.value)
  {
    TopPlaced(s, p, i);
    ReplayOne(p, Linearize(t));
    var empty := op.Pop? && s.cells[i].top == NULL;
    var p' := if empty then p.(calls := p.calls[t := Done(op, i, NULL)]) else p;
    OneThreadMoves(s, p, Loaded(s, t, op, i), p', t);
  }

  lemma EmptyLambdaStep(s: State, p: Spec, a: Action)
    requires Matches(s, p) && Enabled(s, a) && a.RunLambda? && s.pc[a.t].op.Pop? && s.pc[a.t].cache.top == NULL
    ensures Simulated(s, p, a)
  {
    assert ThreadOk(s, p, a.t);
    ReplayOne(p, Respond(a.t, NULL));
    OneThreadMoves(s, p, Apply(s, a), p.(calls := p.calls[a.t := Out]), a.t);
  }

  lemma LambdaStep(s: State, p: Spec, a: Action)
    requires Matches(s, p) && Enabled(s, a) && a.RunLambda?
    requires s.pc[a.t].op.Pop? ==> s.pc[a.t].cache.top != NULL
    ensures Simulated(s, p, a)
  {
    assert ThreadOk(s, p, a.t);
    TopsPlaced(s, p);
    if s.pc[a.t].op.Push? {
      WriteKeepsShape(s, p, s.pc[a.t].op.b, s.pc[a.t].cache.top);
    }
    OneThreadMoves(s, p, Apply(s, a), p, a.t);
  }

  /** A store-conditional that failed: back to the load. */
  lemma RetryStep(s: State, p: Spec, a: Action)
    requires Matches(s, p) && Enabled(s, a) && a.Store? && s.platform.LlSc? && !Succeeds(s, a)
    ensures Simulated(s, p, a)
  {
    assert ThreadOk(s, p, a.t);
    OneThreadMoves(s, p, Apply(s, a), p, a.t);
  }

  // ----- the successful store

  /** Validation: within the bound, a pop's store succeeds only on an unmodified stack. */
  lemma Validated(s: State, p: Spec, a: Action)
    requires Matches(s, p) && Enabled(s, a) && a.Store? && Succeeds(s, a) && WithinBound(s, a)
    ensures var pc := s.pc[a.t];
            && pc.cache.top == s.cells[pc.i].top
            && (pc.op.Pop? ==> pc.ver == s.versions[pc.i])
    ensures s.platform.Dwcas? ==> s.pc[a.t].cache.counter == s.cells[s.pc[a.t].i].counter
  {
    var pc := s.pc[a.t];
    assert ThreadOk(s, p, a.t);
    if s.platform.Dwcas? && pc.op.Pop? {
      CounterInjective(s.platform, pc.ver, s.versions[pc.i]);
    }
  }

  lemma CountersAfterStore(s: State, t: Tid, i: nat, cell: Cell)
    requires Counters(s) && t < |s.pc| && i < |s.cells|
    requires s.platform.Dwcas? ==> cell.counter == Increment(s.cells[i].counter, Range(s.platform))
    ensures Counters(Stored(s, t, i, cell))
  {
  }

  /** The specification after a call took effect and returned at once. */
  function Effected(p: Spec, t: Tid): Spec
    requires t < |p.calls| && TakeEffect(p, t).Some?
  {
    var q := TakeEffect(p, t).value;
    q.(calls := q.calls[t := Out])
  }

  /** A store on stack i by thread t disturbs no other thread, if it takes no other's block and
      moves only blocks of its own. */
  lemma StoreDisturbsNobody(s: State, p: Spec, p': Spec, t: Tid, i: nat, cell: Cell)
    requires Sized(s) && t < |s.pc| == |p.calls| && i < |s.cells|
    requires |p'.calls| == |p.calls| && forall u :: 0 <= u < |p.calls| && u != t ==> p'.calls[u] == p.calls[u]
    requires forall b, u :: b in p.place && p.place[b] == Held(u) && u != t ==> b in p'.place && p'.place[b] == Held(u)
    ensures forall u :: 0 <= u < |s.pc| && u != t ==> Undisturbed(s, p, Stored(s, t, i, cell), p', u)
  {
  }

  lemma PushEffect(p: Spec, t: Tid, i: nat, b: Block)
    requires t < |p.calls| && i < |p.stacks| && p.calls[t] == Pending(Push(b), i)
    ensures TakeEffect(p, t).Some? && Replay(p, [Linearize(t), Respond(t, NULL)]) == Some(Effected(p, t))
    ensures Effected(p, t).stacks == p.stacks[i := p.stacks[i] + [b]]
    ensures Effected(p, t).place == p.place[b := InStack(i, |p.stacks[i]|)]
  {
    ReplayTwo(p, Linearize(t), Respond(t, NULL));
  }

  lemma PushKeepsShape(s: State, p: Spec, t: Tid, i: nat, b: Block, cell: Cell)
    requires Shape(s, p) && i < |s.cells| && t < |p.calls| && p.calls[t] == Pending(Push(b), i)
    requires b in p.place && p.place[b] == Held(t) && s.mem[b] == s.cells[i].top && cell.top == b
    ensures TakeEffect(p, t).Some?
    ensures Placed(Effected(p, t).stacks, Effected(p, t).place)
    ensures Linked(s.mem, s.cells[i := cell], Effected(p, t).stacks)
  {
    PushEffect(p, t, i, b);
    PushKeepsPlaced(p, t, i, b);
    PushKeepsLinked(s.mem, s.cells, p.stacks, i, b, cell);
  }

  lemma PushStep(s: State, p: Spec, a: Action)
    requires Matches(s, p) && Enabled(s, a) && a.Store? && Succeeds(s, a) && s.pc[a.t].op.Push? && WithinBound(s, a)
    ensures Simulated(s, p, a)
  {
    var t, pc := a.t, s.pc[a.t];
    assert ThreadOk(s, p, t);
    Validated(s, p, a);
    PushEffect(p, t, pc.i, pc.op.b);
    PushKeepsShape(s, p, t, pc.i, pc.op.b, NewCell(s, t));
    StoreFinishes(s, p, t, pc.i, NewCell(s, t));
  }

  lemma PopEffect(p: Spec, t: Tid, i: nat)
    requires t < |p.calls| && i < |p.stacks| && p.calls[t] == Pending(Pop, i) && p.stacks[i] != []
    ensures var b, stack := TopOf(p.stacks[i]), p.stacks[i];
            && TakeEffect(p, t).Some?
            && Effected(p, t).stacks == p.stacks[i := stack[..|stack| - 1]]
            && Effected(p, t).place == p.place[b := Held(t)]
            && SpecStep(TakeEffect(p, t).value, Respond(t, b)) == Some(Effected(p, t))
            && SpecStep(p, Linearize(t)) == TakeEffect(p, t)
  {
  }

  /** What a pop that is about to succeed has in its cache: the top, and the word in the top. */
  lemma PopReady(s: State, p: Spec, a: Action)
    requires Matches(s, p) && Enabled(s, a) && a.Store? && Succeeds(s, a) && s.pc[a.t].op.Pop? && WithinBound(s, a)
    ensures var pc := s.pc[a.t];
            && p.calls[a.t] == Pending(Pop, pc.i)
            && p.stacks[pc.i] != []
            && pc.cache.top == s.cells[pc.i].top == TopOf(p.stacks[pc.i])
            && pc.cache.top in s.mem && pc.desired == s.mem[pc.cache.top]
  {
    assert ThreadOk(s, p, a.t);
    Validated(s, p, a);
    TopPlaced(s, p, s.pc[a.t].i);
  }

  lemma PopKeepsShape(s: State, p: Spec, t: Tid, i: nat, cell: Cell)
    requires Shape(s, p) && i < |s.cells| && p.stacks[i] != [] && s.cells[i].top in s.mem && cell.top == s.mem[s.cells[i].top]
    requires t < |p.calls| && p.calls[t] == Pending(Pop, i)
    ensures TakeEffect(p, t).Some?
    ensures Placed(Effected(p, t).stacks, Effected(p, t).place)
    ensures Linked(s.mem, s.cells[i := cell], Effected(p, t).stacks)
  {
    PopEffect(p, t, i);
    PopKeepsPlaced(p, t, i);
    PopKeepsLinked(s.mem, s.cells, p.stacks, i, cell);
  }

  lemma PopStep(s: State, p: Spec, a: Action)
    requires Matches(s, p) && Enabled(s, a) && a.Store? && Succeeds(s, a) && s.pc[a.t].op.Pop? && WithinBound(s, a)
    ensures Simulated(s, p, a)
  {
    var t, pc := a.t, s.pc[a.t];
    PopReady(s, p, a);
    Validated(s, p, a);
    PopEffect(p, t, pc.i);
    ReplayTwo(p, Linearize(t), Respond(t, pc.cache.top));
    PopKeepsShape(s, p, t, pc.i, NewCell(s, t));
    StoreFinishes(s, p, t, pc.i, NewCell(s, t));
  }

  /** What push and pop have in common once the stacks are known to keep their shape. */
  lemma StoreFinishes(s: State, p: Spec, t: Tid, i: nat, cell: Cell)
    requires Matches(s, p) && t < |s.pc| && i < |s.cells|
    requires s.platform.Dwcas? ==> cell.counter == Increment(s.cells[i].counter, Range(s.platform))
    requires TakeEffect(p, t).Some? && KeepsBlock(p, t, p.calls[t].op)
    requires Placed(Effected(p, t).stacks, Effected(p, t).place)
    requires Linked(s.mem, s.cells[i := cell], Effected(p, t).stacks)
    ensures Matches(Stored(s, t, i, cell), Effected(p, t))
  {
    EffectOnOthers(p, t);
    StoreMatches(s, p, Effected(p, t), t, i, cell);
  }

  lemma StoreMatches(s: State, p: Spec, p': Spec, t: Tid, i: nat, cell: Cell)
    requires Matches(s, p) && t < |s.pc| && i < |s.cells|
    requires s.platform.Dwcas? ==> cell.counter == Increment(s.cells[i].counter, Range(s.platform))
    requires Placed(p'.stacks, p'.place) && Linked(s.mem, s.cells[i := cell], p'.stacks) && p'.place.Keys == p.place.Keys
    requires |p'.calls| == |p.calls| && p'.calls[t] == Out
    requires forall u :: 0 <= u < |p.calls| && u != t ==> p'.calls[u] == p.calls[u]
    requires forall b, u :: b in p.place && p.place[b] == Held(u) && u != t ==> b in p'.place && p'.place[b] == Held(u)
    ensures Matches(Stored(s, t, i, cell), p')
  {
    CountersAfterStore(s, t, i, cell);
    StoreDisturbsNobody(s, p, p', t, i, cell);
    OneThreadMoves(s, p, Stored(s, t, i, cell), p', t);
  }

  lemma EffectOnOthers(p: Spec, t: Tid)
    requires Placed(p.stacks, p.place) && t < |p.calls| && TakeEffect(p, t).Some? && KeepsBlock(p, t, p.calls[t].op)
    ensures var p' := Effected(p, t);
            && p'.place.Keys == p.place.Keys && |p'.calls| == |p.calls| && p'.calls[t] == Out
            && (forall u :: 0 <= u < |p.calls| && u != t ==> p'.calls[u] == p.calls[u])
            && (forall b, u :: b in p.place && p.place[b] == Held(u) && u != t ==> b in p'.place && p'.place[b] == Held(u))
  {
    var op, i := p.calls[t].op, p.calls[t].i;
    if op.Pop? && p.stacks[i] != [] {
      assert p.place[TopOf(p.stacks[i])] == InStack(i, |p.stacks[i]| - 1);
    }
  }

  lemma StepSimulated(s: State, p: Spec, a: Action)
    requires Matches(s, p) && Enabled(s, a) && WithinBound(s, a)
    requires ByClient(a) ==> Lawful(p, Events(s, a)[0])
    ensures Simulated(s, p, a)
  {
    var pc := s.pc[a.t];
    assert ThreadOk(s, p, a.t);
    match a
    case Invoke(_, _, _) => InvokeStep(s, p, a);
    case Scribble(_, _, _) => ScribbleStep(s, p, a);
    case Give(_, _, _) => GiveStep(s, p, a);
    case LoadCell(t) => LoadStep(s, p, t, pc.op, pc.i);
    case RunLambda(_, _) =>
      if pc.op.Pop? && pc.cache.top == NULL {
        EmptyLambdaStep(s, p, a);
      } else {
        LambdaStep(s, p, a);
      }
    case Store(t, _) =>
      if !Succeeds(s, a) {
        if s.platform.LlSc? {
          RetryStep(s, p, a);
        } else {
          LoadStep(s, p, t, pc.op, pc.i);
        }
      } else if pc.op.Push? {
        PushStep(s, p, a);
      } else {
        PopStep(s, p, a);
      }
  }
}
