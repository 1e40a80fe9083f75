// The stacks refine atomic stacks: the specification, the simulation relation, and the events.

module StackAtomic {
  import opened Common
  import opened Platforms
  import opened StackModel

  /** Where a block is: in a thread's hands, or the k-th from the bottom of stack i. */
  datatype Place = Held(t: Tid) | InStack(i: nat, k: nat)

  datatype Status = Out | Pending(op: Op, i: nat) | Done(op: Op, i: nat, result: Word)

  /** The specification: sequences of blocks with the top at the end, the place of every block,
      and the call each thread is in. */
  datatype Spec = Spec(stacks: seq<seq<Block>>, place: map<Block, Place>, calls: seq<Status>)

  datatype Event =
    | Called(t: Tid, op: Op, i: nat)
    | Rejected(t: Tid)                   // push(nullptr) throws
    | Written(t: Tid, b: Block)
    | Given(t: Tid, u: Tid, b: Block)
    | Linearize(t: Tid)
    | Respond(t: Tid, result: Word)

  /** What a client may do: push, write into, and hand over only blocks it holds. */
  predicate Lawful(p: Spec, e: Event) {
    && e.t < |p.calls|
    && (e.Called? && e.op.Push? ==> e.op.b in p.place && p.place[e.op.b] == Held(e.t))
    && (e.Written? || e.Given? ==> e.b in p.place && p.place[e.b] == Held(e.t))
  }

  /** The atomic push or pop of a pending call. */
  function TakeEffect(p: Spec, t: Tid): Option<Spec>
    requires t < |p.calls|
  {
    if !p.calls[t].Pending? || p.calls[t].i >= |p.stacks| then None
    else
      var op, i := p.calls[t].op, p.calls[t].i;
      var stack := p.stacks[i];
      match op
      case Push(b) =>
        Some(Spec(p.stacks[i := stack + [b]], p.place[b := InStack(i, |stack|)], p.calls[t := Done(op, i, NULL)]))
      case Pop =>
        if stack == [] then Some(p.(calls := p.calls[t := Done(op, i, NULL)]))
        else
          var b := stack[|stack| - 1];
          Some(Spec(p.stacks[i := stack[..|stack| - 1]], p.place[b := Held(t)], p.calls[t := Done(op, i, b)]))
  }

  function SpecStep(p: Spec, e: Event): Option<Spec> {
    if !Lawful(p, e) then None
    else
      var call := p.calls[e.t];
      match e
      case Called(t, op, i) =>
        if call.Out? && i < |p.stacks| then Some(p.(calls := p.calls[t := Pending(op, i)])) else None
      case Rejected(_) => if call.Out? then Some(p) else None
      case Written(_, _) => if call.Out? then Some(p) else None
      case Given(_, u, b) =>
        if call.Out? && u < |p.calls| then Some(p.(place := p.place[b := Held(u)])) else None
      case Linearize(t) => TakeEffect(p, t)
      case Respond(t, result) =>
        if call.Done? && call.result == result then Some(p.(calls := p.calls[t := Out])) else None
  }

  function Replay(p: Spec, es: seq<Event>): Option<Spec>
    decreases |es|
  {
    if es == [] then Some(p)
    else match SpecStep(p, es[0])
         case None => None
         case Some(next) => Replay(next, es[1..])
  }

  lemma {:induction false} ReplayConcat(p: Spec, xs: seq<Event>, ys: seq<Event>)
    requires Replay(p, xs).Some?
    ensures Replay(p, xs + ys) == Replay(Replay(p, xs).value, ys)
    decreases |xs|
  {
    if xs == [] {
      assert xs + ys == ys;
    } else {
      assert (xs + ys)[1..] == xs[1..] + ys;
      ReplayConcat(SpecStep(p, xs[0]).value, xs[1..], ys);
    }
  }

  lemma {:induction false} FirstPart(p: Spec, xs: seq<Event>, ys: seq<Event>)
    requires Replay(p, xs + ys).Some?
    ensures Replay(p, xs).Some? && Replay(p, xs + ys) == Replay(Replay(p, xs).value, ys)
    decreases |xs|
  {
    if xs == [] {
      assert xs + ys == ys;
    } else {
      assert (xs + ys)[1..] == xs[1..] + ys && (xs + ys)[0] == xs[0];
      FirstPart(SpecStep(p, xs[0]).value, xs[1..], ys);
    }
  }

  /** A pop that finds its stack empty takes effect where it finds that out. */
  function SeesEmpty(s: State, t: Tid, pc: Pc): seq<Event>
    requires !pc.Idle? && pc.i < |s.cells|
  {
    if pc.op.Pop? && s.cells[pc.i].top == NULL then [Linearize(t)] else []
  }

  /** Any other call takes effect where its conditional store succeeds. */
  function Events(s: State, a: Action): seq<Event>
    requires Enabled(s, a)
  {
    var pc := s.pc[a.t];
    match a
    case Invoke(t, op, i) => if op == Push(NULL) then [Rejected(t)] else [Called(t, op, i)]
    case Scribble(t, b, _) => [Written(t, b)]
    case Give(t, u, b) => [Given(t, u, b)]
    case LoadCell(t) => SeesEmpty(s, t, pc)
    case RunLambda(t, _) => if pc.op.Pop? && pc.cache.top == NULL then [Respond(t, NULL)] else []
    case Store(t, _) =>
      if Succeeds(s, a) then [Linearize(t), Respond(t, if pc.op.Pop? then pc.cache.top else NULL)]
      else if s.platform.Dwcas? then SeesEmpty(s, t, pc)
      else []
  }

  function Trace(s: State, acts: seq<Action>): seq<Event>
    requires Runs(s, acts)
    decreases |acts|
  {
    if acts == [] then [] else Events(s, acts[0]) + Trace(Apply(s, acts[0]), acts[1..])
  }

  // ----- the shape of the stacks

  function TopOf(stack: seq<Block>): Word {
    if stack == [] then NULL else stack[|stack| - 1]
  }

  /** What the block at height k links to: the one below it, or null. */
  function Below(stack: seq<Block>, k: nat): Word
    requires k < |stack|
  {
    if k == 0 then NULL else stack[k - 1]
  }

  /** Every block is in exactly one place, and in a stack exactly where its place says. */
  ghost predicate Placed(stacks: seq<seq<Block>>, place: map<Block, Place>) {
    && NULL !in place
    && (forall i, k :: 0 <= i < |stacks| && 0 <= k < |stacks[i]| ==>
          stacks[i][k] in place && place[stacks[i][k]] == InStack(i, k))
    && (forall b :: b in place && place[b].InStack? ==>
          place[b].i < |stacks| && place[b].k < |stacks[place[b].i]| && stacks[place[b].i][place[b].k] == b)
  }

  /** Every chain from a top runs through exactly the blocks of the abstract stack, to null. */
  ghost predicate Linked(mem: map<Block, Word>, cells: seq<Cell>, stacks: seq<seq<Block>>) {
    && |cells| == |stacks|
    && (forall i :: 0 <= i < |cells| ==> cells[i].top == TopOf(stacks[i]))
    && (forall i, k :: 0 <= i < |stacks| && 0 <= k < |stacks[i]| ==>
          stacks[i][k] in mem && mem[stacks[i][k]] == Below(stacks[i], k))
  }

  ghost predicate Shape(s: State, p: Spec) {
    && Sized(s)
    && s.mem.Keys == p.place.Keys
    && Placed(p.stacks, p.place)
    && Linked(s.mem, s.cells, p.stacks)
  }

  // ----- the threads

  ghost predicate Counters(s: State) {
    && Sized(s)
    && (s.platform.Dwcas? ==> forall i :: 0 <= i < |s.cells| ==> s.cells[i].counter == CounterAt(s.platform, s.versions[i]))
  }

  /** What a filled cache is worth: it is the current cell if the stack was not modified since. */
  ghost predicate CacheMatches(s: State, t: Tid, i: nat, cache: Cell, ver: nat) {
    && Sized(s) && i < |s.cells|
    && ver <= s.versions[i]
    && (ver == s.versions[i] ==> cache == s.cells[i])
    && (s.platform.Dwcas? ==> cache.counter == CounterAt(s.platform, ver))
    && (s.platform.LlSc? && t in s.monitors[i] ==> ver == s.versions[i])
  }

  /** A pushed block stays in the hands of its thread until the push takes effect. */
  ghost predicate KeepsBlock(p: Spec, t: Tid, op: Op) {
    op.Push? ==> op.b in p.place && p.place[op.b] == Held(t)
  }

  ghost predicate ThreadOk(s: State, p: Spec, t: Tid)
    requires t < |s.pc| && t < |p.calls|
  {
    var call := p.calls[t];
    match s.pc[t]
    case Idle => call == Out
    case Load(op, i) => i < |s.cells| && call == Pending(op, i) && KeepsBlock(p, t, op)
    case Ready(op, i, cache, ver) =>
      && CacheMatches(s, t, i, cache, ver)
      && KeepsBlock(p, t, op)
      && call == if op.Pop? && cache.top == NULL then Done(op, i, NULL) else Pending(op, i)
    case Commit(op, i, cache, ver, desired) =>
      && CacheMatches(s, t, i, cache, ver)
      && KeepsBlock(p, t, op)
      && call == Pending(op, i)
      && (match op
          case Push(b) => desired == b && b in s.mem && s.mem[b] == cache.top
          case Pop =>
            && cache.top != NULL
            // the validated read
            && (ver == s.versions[i] ==> cache.top in s.mem && desired == s.mem[cache.top]))
  }

  ghost predicate Threads(s: State, p: Spec) {
    && |p.calls| == |s.pc|
    && (forall t :: 0 <= t < |s.pc| ==> ThreadOk(s, p, t))
  }

  ghost predicate Matches(s: State, p: Spec) {
    Shape(s, p) && Counters(s) && Threads(s, p)
  }
}
