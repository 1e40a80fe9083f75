// Both implementations of `modify` mean one atomic step: apply the modifier to the current
// value, or leave the value alone when the modifier refuses, and say which.

module ModifyAtomic {
  import opened Common
  import opened Platforms
  import opened ModifyModel

  datatype Status<!T> = Out | Pending(f: Modifier<T>) | Done(success: bool)

  /** The specification: one value, and the call each thread is in. */
  datatype Spec<!T> = Spec(data: T, calls: seq<Status<T>>)

  datatype Event<!T> =
    | Invoke(t: Tid, f: Modifier<T>)
    | Linearize(t: Tid)
    | Respond(t: Tid, success: bool)

  function SpecStep<T>(p: Spec<T>, e: Event<T>): Option<Spec<T>> {
    if e.t >= |p.calls| then None
    else
      var call := p.calls[e.t];
      match e
      case Invoke(t, f) => if call.Out? then Some(p.(calls := p.calls[t := Pending(f)])) else None
      case Linearize(t) =>
        if !call.Pending? then None
        else (match call.f(p.data)
              case None => Some(p.(calls := p.calls[t := Done(false)]))
              case Some(d) => Some(p.(data := d, calls := p.calls[t := Done(true)])))
      case Respond(t, success) =>
        if call.Done? && call.success == success then Some(p.(calls := p.calls[t := Out])) else None
  }

  function Replay<T>(p: Spec<T>, es: seq<Event<T>>): Option<Spec<T>>
    decreases |es|
  {
    if es == [] then Some(p)
    else match SpecStep(p, es[0])
         case None => None
         case Some(next) => Replay(next, es[1..])
  }

  lemma {:induction false} ReplayConcat<T>(p: Spec<T>, xs: seq<Event<T>>, ys: seq<Event<T>>)
    requires Replay(p, xs).Some?
    ensures Replay(p, xs + ys) == Replay(Replay(p, xs).value, ys)
    decreases |xs|
  {
    if xs == [] {
      assert xs + ys == ys;
    } else {
      assert (xs + ys)[1..] == xs[1..] + ys;
      ReplayConcat(SpecStep(p, xs[0]).value, xs[1..], ys);
    }
  }

  /** A call takes effect when its store succeeds, or when it loads a value its modifier refuses. */
  function Events<T(==)>(s: State<T>, a: Action<T>): seq<Event<T>>
    requires Enabled(s, a)
  {
    var refuses := (f: Modifier<T>) => if f(s.data).None? then [Linearize(a.t)] else [];
    match a
    case Call(t, f) => [Invoke(t, f)]
    case LoadCell(t) => refuses(s.pc[t].f)
    case RunModifier(t) => if s.pc[t].f(s.pc[t].data).None? then [Respond(t, false)] else []
    case Store(t, _) =>
      if Succeeds(s, a) then [Linearize(t), Respond(t, true)]
      else if s.platform.Dwcas? then refuses(s.pc[t].f)
      else []
  }

  function Trace<T(==)>(s: State<T>, acts: seq<Action<T>>): seq<Event<T>>
    requires Runs(s, acts)
    decreases |acts|
  {
    if acts == [] then [] else Events(s, acts[0]) + Trace(Apply(s, acts[0]), acts[1..])
  }

  ghost predicate ThreadMatches<T>(s: State<T>, call: Status<T>, t: Tid)
    requires t < |s.pc|
  {
    && (t in s.monitors ==> (s.pc[t].Ready? || s.pc[t].Commit?) && s.pc[t].data == s.data)
    && match s.pc[t]
       case Idle => call == Out
       case Load(f) => call == Pending(f)
       case Ready(f, data, _) => call == if f(data).None? then Done(false) else Pending(f)
       case Commit(f, data, _, desired) => f(data) == Some(desired) && call == Pending(f)
  }

  ghost predicate Matches<T>(s: State<T>, p: Spec<T>) {
    && p.data == s.data
    && |p.calls| == |s.pc|
    && (forall t :: 0 <= t < |s.pc| ==> ThreadMatches(s, p.calls[t], t))
  }

  lemma StepIsAtomic<T>(s: State<T>, p: Spec<T>, a: Action<T>)
    requires Matches(s, p) && Enabled(s, a)
    ensures var next := Replay(p, Events(s, a));
            next.Some? && Matches(Apply(s, a), next.value)
  {
    var es := Events(s, a);
    assert ThreadMatches(s, p.calls[a.t], a.t);
    if |es| == 1 {
      assert Replay(p, es) == match SpecStep(p, es[0]) { case None => None case Some(q) => Replay(q, []) };
    } else if |es| == 2 {
      var q := SpecStep(p, es[0]).value;
      assert es[1..] == [es[1]];
      assert Replay(q, [es[1]]) == match SpecStep(q, es[1]) { case None => None case Some(r) => Replay(r, []) };
    }
    var next := Replay(p, es).value;
    assert forall t :: 0 <= t < |s.pc| && t != a.t ==> next.calls[t] == p.calls[t] && Apply(s, a).pc[t] == s.pc[t];
    forall t | 0 <= t < |s.pc|
      ensures ThreadMatches(Apply(s, a), next.calls[t], t)
    {
      assert ThreadMatches(s, p.calls[t], t);
    }
  }

  /** Every run on either platform, with any modifiers, and however often the counter wraps, is
      a history of the atomic object: each call takes effect exactly once, between its invocation
      and its response, and returns what the atomic step returns. */
  lemma {:induction false} ModifyIsAtomic<T>(s: State<T>, p: Spec<T>, acts: seq<Action<T>>)
    requires Matches(s, p) && Runs(s, acts)
    ensures var last := Replay(p, Trace(s, acts));
            last.Some? && Matches(After(s, acts), last.value)
    decreases |acts|
  {
    if acts == [] {
    } else {
      StepIsAtomic(s, p, acts[0]);
      var q := Replay(p, Events(s, acts[0])).value;
      ModifyIsAtomic(Apply(s, acts[0]), q, acts[1..]);
      ReplayConcat(p, Events(s, acts[0]), Trace(Apply(s, acts[0]), acts[1..]));
    }
  }

  // ----- the fold of the successful modifiers

  /** The modifiers of the stores that succeeded, in order. */
  function Applied<T(==)>(s: State<T>, acts: seq<Action<T>>): seq<Modifier<T>>
    requires Runs(s, acts)
    decreases |acts|
  {
    if acts == [] then []
    else
      (if acts[0].Store? && Succeeds(s, acts[0]) then [s.pc[acts[0].t].f] else [])
      + Applied(Apply(s, acts[0]), acts[1..])
  }

  /** Apply modifiers one after another; none of them may refuse. */
  function Fold<T>(data: T, fs: seq<Modifier<T>>): Option<T>
    decreases |fs|
  {
    if fs == [] then Some(data)
    else match fs[0](data)
         case None => None
         case Some(d) => Fold(d, fs[1..])
  }

  lemma StepFolds<T>(s: State<T>, p: Spec<T>, a: Action<T>)
    requires Matches(s, p) && Enabled(s, a)
    ensures var next := Apply(s, a);
            && next.platform == s.platform
            && if a.Store? && Succeeds(s, a) then
                 && s.pc[a.t].f(s.data) == Some(next.data)
                 && (s.platform.Dwcas? ==> next.counter == Increment(s.counter, Range(s.platform)))
               else next.data == s.data && next.counter == s.counter
  {
    assert ThreadMatches(s, p.calls[a.t], a.t);
  }

  lemma {:induction false} FoldOfModifiers<T>(s: State<T>, p: Spec<T>, acts: seq<Action<T>>)
    requires Matches(s, p) && Runs(s, acts)
    ensures Fold(s.data, Applied(s, acts)) == Some(After(s, acts).data)
    decreases |acts|
  {
    if acts == [] {
    } else {
      var a, next := acts[0], Apply(s, acts[0]);
      StepIsAtomic(s, p, a);
      StepFolds(s, p, a);
      FoldOfModifiers(next, Replay(p, Events(s, a)).value, acts[1..]);
      var rest := Applied(next, acts[1..]);
      if a.Store? && Succeeds(s, a) {
        assert ([s.pc[a.t].f] + rest)[1..] == rest;
      } else {
        assert [] + rest == rest;
      }
    }
  }

  lemma {:induction false} CounterCounts<T>(s: State<T>, version: nat, acts: seq<Action<T>>)
    requires Runs(s, acts) && s.platform.Dwcas? && s.counter == CounterAt(s.platform, version)
    ensures After(s, acts).counter == CounterAt(s.platform, version + |Applied(s, acts)|)
    decreases |acts|
  {
    if acts == [] {
    } else {
      var stored := acts[0].Store? && Succeeds(s, acts[0]);
      CounterCounts(Apply(s, acts[0]), if stored then version + 1 else version, acts[1..]);
    }
  }

  lemma InitMatches<T>(platform: Platform, init: T, n: nat)
    ensures Matches(Init(platform, init, n), Spec(init, seq(n, _ => Out)))
  {
  }

  /** From a new wrapper: the word is the fold of the calls that returned true, in the order of
      their stores, and the counter is one more than their number, modulo its range. */
  lemma WordIsFold<T>(platform: Platform, init: T, n: nat, acts: seq<Action<T>>)
    requires Runs(Init(platform, init, n), acts)
    ensures var s := After(Init(platform, init, n), acts);
            var fs := Applied(Init(platform, init, n), acts);
            && Fold(init, fs) == Some(s.data)
            && (platform.Dwcas? ==> s.counter == (1 + |fs|) % Pow2(platform.w))
  {
    InitMatches(platform, init, n);
    FoldOfModifiers(Init(platform, init, n), Spec(init, seq(n, _ => Out)), acts);
    if platform.Dwcas? {
      CounterCounts(Init(platform, init, n), 0, acts);
      CounterIsModulo(platform, |Applied(Init(platform, init, n), acts)|);
    }
  }

  lemma {:induction false} TraceConcat<T>(s: State<T>, xs: seq<Action<T>>, ys: seq<Action<T>>)
    requires Runs(s, xs) && Runs(After(s, xs), ys) && Runs(s, xs + ys)
    ensures Trace(s, xs + ys) == Trace(s, xs) + Trace(After(s, xs), ys)
    decreases |xs|
  {
    if xs == [] {
      assert xs + ys == ys;
    } else {
      assert (xs + ys)[1..] == xs[1..] + ys;
      TraceConcat(Apply(s, xs[0]), xs[1..], ys);
    }
  }

  // ----- histories of the atomic object

  predicate NothingOf<T>(es: seq<Event<T>>, t: Tid) {
    forall k :: 0 <= k < |es| ==> es[k].t != t
  }

  lemma {:induction false} FirstPart<T>(p: Spec<T>, xs: seq<Event<T>>, ys: seq<Event<T>>)
    requires Replay(p, xs + ys).Some?
    ensures Replay(p, xs).Some? && Replay(p, xs + ys) == Replay(Replay(p, xs).value, ys)
    decreases |xs|
  {
    if xs == [] {
      assert xs + ys == ys;
    } else {
      assert (xs + ys)[1..] == xs[1..] + ys && (xs + ys)[0] == xs[0];
      FirstPart(SpecStep(p, xs[0]).value, xs[1..], ys);
    }
  }

  lemma {:induction false} CallWaits<T>(p: Spec<T>, es: seq<Event<T>>, t: Tid)
    requires Replay(p, es).Some? && NothingOf(es, t) && t < |p.calls|
    ensures t < |Replay(p, es).value.calls| && Replay(p, es).value.calls[t] == p.calls[t]
    decreases |es|
  {
    if es == [] {
    } else {
      assert forall k :: 0 <= k < |es[1..]| ==> es[1..][k] == es[k + 1];
      CallWaits(SpecStep(p, es[0]).value, es[1..], t);
    }
  }

  lemma ReplayOne<T>(p: Spec<T>, e: Event<T>)
    ensures Replay(p, [e]) == SpecStep(p, e)
  {
    if SpecStep(p, e).Some? {
      assert Replay(SpecStep(p, e).value, [e][1..]) == SpecStep(p, e);
    }
  }

  /** In every history a call applies its modifier once, to the value of that moment, and returns
      whether it was accepted; a refusal leaves the value alone. */
  lemma ReturnsTheAnswer<T>(p: Spec<T>, xs: seq<Event<T>>, t: Tid, ys: seq<Event<T>>, success: bool)
    requires Replay(p, xs + ([Linearize(t)] + (ys + [Respond(t, success)]))).Some? && NothingOf(ys, t)
    ensures Replay(p, xs).Some?
    ensures var q := Replay(p, xs).value;
            && t < |q.calls| && q.calls[t].Pending?
            && var answer, r := q.calls[t].f(q.data), Replay(q, [Linearize(t)]);
               && r.Some? && success == answer.Some?
               && r.value.data == if answer.Some? then answer.value else q.data
  {
    FirstPart(p, xs, [Linearize(t)] + (ys + [Respond(t, success)]));
    var q := Replay(p, xs).value;
    FirstPart(q, [Linearize(t)], ys + [Respond(t, success)]);
    ReplayOne(q, Linearize(t));
    var r := Replay(q, [Linearize(t)]).value;
    FirstPart(r, ys, [Respond(t, success)]);
    CallWaits(r, ys, t);
    ReplayOne(Replay(r, ys).value, Respond(t, success));
  }
}
