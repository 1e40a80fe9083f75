// Laws about the histories of the atomic stacks and of the atomic object: what a call returns is
// decided at the moment it takes effect.

module StackLaws {
  import opened Common
  import opened Platforms
  import opened StackModel
  import opened StackAtomic
  import opened StackRefinement

  predicate NothingOf(es: seq<Event>, t: Tid) {
    forall k :: 0 <= k < |es| ==> es[k].t != t
  }

  lemma {:induction false} CallWaits(p: Spec, es: seq<Event>, t: Tid)
    requires Replay(p, es).Some? && NothingOf(es, t) && t < |p.calls|
    ensures t < |Replay(p, es).value.calls| && Replay(p, es).value.calls[t] == p.calls[t]
    decreases |es|
  {
    if es == [] {
    } else {
      assert forall k :: 0 <= k < |es[1..]| ==> es[1..][k] == es[k + 1];
      CallWaits(SpecStep(p, es[0]).value, es[1..], t);
    }
  }

  /** In every history of the atomic stacks a call takes effect once, on the stack of its own, and
      returns what was on top at that moment: push adds its block, pop takes the top block, or
      nothing from an empty stack. */
  lemma ReturnsTheTop(p: Spec, xs: seq<Event>, t: Tid, ys: seq<Event>, result: Word)
    requires Replay(p, xs + ([Linearize(t)] + (ys + [Respond(t, result)]))).Some? && NothingOf(ys, t)
    ensures Replay(p, xs).Some?
    ensures var q := Replay(p, xs).value;
            && t < |q.calls| && q.calls[t].Pending? && q.calls[t].i < |q.stacks|
            && var op, i := q.calls[t].op, q.calls[t].i;
               var r := Replay(q, [Linearize(t)]);
               && r.Some?
               && result == (if op.Pop? then TopOf(q.stacks[i]) else NULL)
               && r.value.stacks == q.stacks[i :=
                    if op.Push? then q.stacks[i] + [op.b]
                    else if q.stacks[i] == [] then [] else q.stacks[i][..|q.stacks[i]| - 1]]
  {
    FirstPart(p, xs, [Linearize(t)] + (ys + [Respond(t, result)]));
    var q := Replay(p, xs).value;
    FirstPart(q, [Linearize(t)], ys + [Respond(t, result)]);
    ReplayOne(q, Linearize(t));
    var r := Replay(q, [Linearize(t)]).value;
    FirstPart(r, ys, [Respond(t, result)]);
    CallWaits(r, ys, t);
    ReplayOne(Replay(r, ys).value, Respond(t, result));
  }

  /** A block handed over is in the hands of the receiver, who may push it, and of nobody else. */
  lemma GivenIsHeld(p: Spec, t: Tid, u: Tid, b: Block, i: nat)
    requires SpecStep(p, Given(t, u, b)).Some?
    ensures var q := SpecStep(p, Given(t, u, b)).value;
            && q.stacks == p.stacks && q.calls == p.calls
            && (forall v :: Lawful(q, Called(v, Push(b), i)) <==> v == u)
            && (forall c, v :: c != b ==> (Lawful(q, Called(v, Push(c), i)) <==> Lawful(p, Called(v, Push(c), i))))
  {
  }
}
