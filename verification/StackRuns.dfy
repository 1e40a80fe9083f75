// Linearizability with memory reuse, and the shape of the stacks, over every run.

module StackRuns {
  import opened Common
  import opened Platforms
  import opened StackModel
  import opened StackAtomic
  import opened StackRefinement

  /** A run in which clients push, write and hand over only what they hold, and no pop outlives a full turn
      of the counter. Clients see the results of earlier steps, so `p` goes along. */
  ghost predicate Behaves(s: State, p: Spec, acts: seq<Action>)
    decreases |acts|
  {
    acts == [] ||
    (&& Allowed(s, p, acts[0])
     && (Replay(p, Events(s, acts[0])).Some? ==>
           Behaves(Apply(s, acts[0]), Replay(p, Events(s, acts[0])).value, acts[1..])))
  }

  /** A step that the code, the bound and the clients' good manners allow. */
  predicate Allowed(s: State, p: Spec, a: Action) {
    && Enabled(s, a)
    && WithinBound(s, a)
    && (ByClient(a) ==> Lawful(p, Events(s, a)[0]))
  }

  /** One step of such a run. */
  ghost predicate GoodStep(s: State, p: Spec, a: Action, q: Spec) {
    Allowed(s, p, a) && Replay(p, Events(s, a)) == Some(q)
  }

  /** Such a run, and where it ends. */
  ghost predicate Ends(s: State, p: Spec, acts: seq<Action>, s1: State, p1: Spec) {
    Behaves(s, p, acts) && Runs(s, acts) && After(s, acts) == s1 && Replay(p, Trace(s, acts)) == Some(p1)
  }

  /** A run can be continued by one good step. */
  lemma {:induction false} OneMoreStep(s: State, p: Spec, acts: seq<Action>, p1: Spec, a: Action, q: Spec)
    requires Runs(s, acts) && Ends(s, p, acts, After(s, acts), p1) && GoodStep(After(s, acts), p1, a, q)
    ensures Ends(s, p, acts + [a], Apply(After(s, acts), a), q)
    decreases |acts|
  {
    if acts == [] {
      assert acts + [a] == [a] && [a][1..] == [];
      assert Trace(s, [a]) == Events(s, a) + [];
      assert Events(s, a) + [] == Events(s, a);
    } else {
      var next, es, rest := Apply(s, acts[0]), Events(s, acts[0]), acts[1..];
      assert (acts + [a])[0] == acts[0] && (acts + [a])[1..] == rest + [a];
      FirstPart(p, es, Trace(next, rest));
      ReplayConcat(p, es, Trace(next, rest));
      OneMoreStep(next, Replay(p, es).value, rest, p1, a, q);
      ReplayConcat(p, es, Trace(next, rest + [a]));
    }
  }

  lemma {:induction false} TraceMore(s: State, acts: seq<Action>, a: Action)
    requires Runs(s, acts) && Enabled(After(s, acts), a)
    ensures Runs(s, acts + [a]) && After(s, acts + [a]) == Apply(After(s, acts), a)
    ensures Trace(s, acts + [a]) == Trace(s, acts) + Events(After(s, acts), a)
    decreases |acts|
  {
    if acts == [] {
      assert acts + [a] == [a] && [a][1..] == [];
    } else {
      assert (acts + [a])[0] == acts[0] && (acts + [a])[1..] == acts[1..] + [a];
      TraceMore(Apply(s, acts[0]), acts[1..], a);
    }
  }

  /** Linearizability: the calls, returns and linearization points of a run are a history of the
      atomic stacks, with the same results; and the concrete stacks match the abstract ones. */
  lemma {:induction false} StacksAreLinearizable(s: State, p: Spec, acts: seq<Action>)
    requires Matches(s, p) && Behaves(s, p, acts)
    ensures Runs(s, acts)
    ensures var last := Replay(p, Trace(s, acts));
            last.Some? && Matches(After(s, acts), last.value)
    decreases |acts|
  {
    if acts == [] {
    } else {
      StepSimulated(s, p, acts[0]);
      var q := Replay(p, Events(s, acts[0])).value;
      StacksAreLinearizable(Apply(s, acts[0]), q, acts[1..]);
      ReplayConcat(p, Events(s, acts[0]), Trace(Apply(s, acts[0]), acts[1..]));
    }
  }

  // ----- where runs begin

  /** All stacks empty; every block in the hands of some thread. */
  function InitSpec(place: map<Block, Place>, stacks: nat, n: nat): Spec {
    Spec(seq(stacks, _ => []), place, seq(n, _ => Out))
  }

  ghost predicate AllHeld(mem: map<Block, Word>, place: map<Block, Place>) {
    && NULL !in mem
    && place.Keys == mem.Keys
    && forall b :: b in place ==> place[b].Held?
  }

  lemma InitMatches(platform: Platform, mem: map<Block, Word>, place: map<Block, Place>, stacks: nat, n: nat)
    requires AllHeld(mem, place)
    ensures Matches(Init(platform, mem, stacks, n), InitSpec(place, stacks, n))
  {
  }

  // ----- the shape theorem

  /** The blocks reached from `top` in `fuel` links. */
  function Chain(mem: map<Block, Word>, top: Word, fuel: nat): seq<Block>
    decreases fuel
  {
    if fuel == 0 || top !in mem then [] else Chain(mem, mem[top], fuel - 1) + [top]
  }

  ghost predicate NoRepeats(bs: seq<Block>) {
    forall j, k :: 0 <= j < k < |bs| ==> bs[j] != bs[k]
  }

  /** Following the links from the top of an abstract stack walks through exactly that stack. */
  lemma {:induction false} ChainIsStack(mem: map<Block, Word>, stack: seq<Block>, n: nat, fuel: nat)
    requires n <= |stack| && n <= fuel && NULL !in mem
    requires forall k :: 0 <= k < |stack| ==> stack[k] in mem && mem[stack[k]] == Below(stack, k)
    ensures Chain(mem, TopOf(stack[..n]), fuel) == stack[..n]
    decreases n
  {
    if n == 0 {
    } else {
      ChainIsStack(mem, stack, n - 1, fuel - 1);
      assert TopOf(stack[..n]) == stack[n - 1];
      assert Below(stack, n - 1) == TopOf(stack[..n - 1]);
      assert stack[..n - 1] + [stack[n - 1]] == stack[..n];
    }
  }

  /** At every moment of every such run: the chain from each top ends at null and is the abstract
      stack; no block is in a chain twice, in two chains, or both in a chain and in a thread's
      hands; and no block is lost. */
  lemma ShapeAlways(s: State, p: Spec, acts: seq<Action>)
    requires Matches(s, p) && Behaves(s, p, acts)
    ensures Runs(s, acts) && Replay(p, Trace(s, acts)).Some?
    ensures var n, q := After(s, acts), Replay(p, Trace(s, acts)).value;
            && |n.cells| == |q.stacks| && n.mem.Keys == q.place.Keys
            && (forall i, fuel: nat :: 0 <= i < |n.cells| && |q.stacks[i]| <= fuel ==>
                  Chain(n.mem, n.cells[i].top, fuel) == q.stacks[i])
            && (forall i :: 0 <= i < |n.cells| ==> NoRepeats(q.stacks[i]))
            && (forall i, j, b :: 0 <= i < j < |n.cells| && b in q.stacks[i] ==> b !in q.stacks[j])
            && (forall i, b :: 0 <= i < |n.cells| && b in q.stacks[i] ==> b in q.place && !q.place[b].Held?)
            && (forall b :: b in q.place && !q.place[b].Held? ==> exists i :: 0 <= i < |n.cells| && b in q.stacks[i])
  {
    StacksAreLinearizable(s, p, acts);
    var n, q := After(s, acts), Replay(p, Trace(s, acts)).value;
    forall i, fuel: nat | 0 <= i < |n.cells| && |q.stacks[i]| <= fuel
      ensures Chain(n.mem, n.cells[i].top, fuel) == q.stacks[i]
    {
      ChainIsStack(n.mem, q.stacks[i], |q.stacks[i]|, fuel);
      assert q.stacks[i][..|q.stacks[i]|] == q.stacks[i];
    }
    StackedOnce(q);
  }

  lemma StackedOnce(q: Spec)
    requires Placed(q.stacks, q.place)
    ensures forall i :: 0 <= i < |q.stacks| ==> NoRepeats(q.stacks[i])
    ensures forall i, b :: 0 <= i < |q.stacks| && b in q.stacks[i] ==> b in q.place && q.place[b].InStack? && q.place[b].i == i
    ensures forall b :: b in q.place && q.place[b].InStack? ==> exists i :: 0 <= i < |q.stacks| && b in q.stacks[i]
  {
    forall i | 0 <= i < |q.stacks|
      ensures NoRepeats(q.stacks[i])
    {
      forall j, k | 0 <= j < k < |q.stacks[i]|
        ensures q.stacks[i][j] != q.stacks[i][k]
      {
        assert q.place[q.stacks[i][j]] == InStack(i, j);
        assert q.place[q.stacks[i][k]] == InStack(i, k);
      }
    }
  }

  /** The conditional store of thread `t` would succeed, and the counter has not turned once. */
  predicate StillValid(s: State, t: Tid)
    requires Sized(s) && t < |s.pc| && s.pc[t].Commit? && s.pc[t].i < |s.cells|
  {
    var pc := s.pc[t];
    if s.platform.Dwcas? then pc.cache == s.cells[pc.i] && s.versions[pc.i] < pc.ver + Range(s.platform)
    else t in s.monitors[pc.i]
  }

  /** The validated read: for an in-flight pop that has read its next word, if the pair in its
      cache is still the pair of its stack, and the stack was modified less often than the counter
      has values, then the word it read is the current next word of the current top. */
  lemma ValidatedRead(s: State, p: Spec, acts: seq<Action>, t: Tid)
    requires Matches(s, p) && Behaves(s, p, acts)
    ensures Runs(s, acts)
    ensures var n := After(s, acts);
            t < |n.pc| && n.pc[t].Commit? && n.pc[t].op.Pop? ==>
              var pc := n.pc[t];
              && Sized(n) && pc.i < |n.cells|
              && (StillValid(n, t) ==>
                    && pc.cache.top == n.cells[pc.i].top
                    && pc.cache.top in n.mem && pc.desired == n.mem[pc.cache.top])
  {
    StacksAreLinearizable(s, p, acts);
    var n := After(s, acts);
    if t < |n.pc| && n.pc[t].Commit? && n.pc[t].op.Pop? {
      var pc := n.pc[t];
      assert ThreadOk(n, Replay(p, Trace(s, acts)).value, t);
      if StillValid(n, t) && n.platform.Dwcas? {
        CounterInjective(n.platform, pc.ver, n.versions[pc.i]);
      }
    }
  }
}
