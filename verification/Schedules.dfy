// What a call does amid other threads, entry by entry: its own actions, and rounds in which the
// environment is given a batch of actions to try.

module Schedules {
  import opened Common

  datatype Entry<A> = Own(a: A) | Round(env: seq<A>)

  /** A state reached, and the actions that were carried out on the way. */
  datatype Done<S, A> = Done(now: S, acts: seq<A>)

  /** A partial step: what an action leads to, if it can be done. */
  type Step<!S, !A> = (S, A) -> Option<S>

  /** A batch, tried in order: what cannot be done when its turn comes is skipped, everything else
      is done. */
  function Tried<S, A>(step: Step<S, A>, s: S, env: seq<A>): Done<S, A>
    decreases |env|
  {
    if env == [] then Done(s, [])
    else
      var d, a := Tried(step, s, env[..|env| - 1]), env[|env| - 1];
      match step(d.now, a)
      case None => d
      case Some(next) => Done(next, d.acts + [a])
  }

  lemma TriedOneMore<S, A>(step: Step<S, A>, s: S, env: seq<A>, i: nat)
    requires i < |env|
    ensures var d := Tried(step, s, env[..i]);
            Tried(step, s, env[..i + 1])
            == match step(d.now, env[i]) case None => d case Some(next) => Done(next, d.acts + [env[i]])
  {
    assert env[..i + 1][..i] == env[..i];
  }

  /** Two batches, tried one after the other. */
  lemma {:induction false} TriedConcat<S, A>(step: Step<S, A>, s: S, xs: seq<A>, ys: seq<A>)
    ensures var d := Tried(step, s, xs);
            var e := Tried(step, d.now, ys);
            Tried(step, s, xs + ys) == Done(e.now, d.acts + e.acts)
    decreases |ys|
  {
    if ys == [] {
      assert xs + ys == xs;
    } else {
      var init := ys[..|ys| - 1];
      assert (xs + ys)[..|xs + ys| - 1] == xs + init;
      TriedConcat(step, s, xs, init);
    }
  }

  function Flat<A>(batches: seq<seq<A>>): seq<A>
    decreases |batches|
  {
    if batches == [] then [] else Flat(batches[..|batches| - 1]) + batches[|batches| - 1]
  }

  /** All of a batch can be done, one action after another. */
  predicate CanDo<S, A>(step: Step<S, A>, s: S, env: seq<A>)
    decreases |env|
  {
    env == [] || (step(s, env[0]).Some? && CanDo(step, step(s, env[0]).value, env[1..]))
  }

  function AfterAll<S, A>(step: Step<S, A>, s: S, env: seq<A>): S
    requires CanDo(step, s, env)
    decreases |env|
  {
    if env == [] then s else AfterAll(step, step(s, env[0]).value, env[1..])
  }

  /** A batch that can be done is done, all of it and as it is. */
  lemma {:induction false} TriedIsDone<S, A>(step: Step<S, A>, s: S, env: seq<A>)
    requires CanDo(step, s, env)
    ensures Tried(step, s, env) == Done(AfterAll(step, s, env), env)
    decreases |env|
  {
    if env == [] {
    } else {
      var init, a := env[..|env| - 1], env[|env| - 1];
      assert env == init + [a];
      CanDoFirst(step, s, init, a);
      TriedIsDone(step, s, init);
    }
  }

  lemma {:induction false} CanDoFirst<S, A>(step: Step<S, A>, s: S, init: seq<A>, a: A)
    requires CanDo(step, s, init + [a])
    ensures CanDo(step, s, init) && step(AfterAll(step, s, init), a) == Some(AfterAll(step, s, init + [a]))
    decreases |init|
  {
    if init == [] {
      assert ([] + [a])[1..] == [];
    } else {
      assert (init + [a])[1..] == init[1..] + [a] && (init + [a])[0] == init[0];
      CanDoFirst(step, step(s, init[0]).value, init[1..], a);
    }
  }

  /** What `done` amounts to from state `s`, if every own action was possible. */
  function Replayed<S, A>(own: Step<S, A>, others: Step<S, A>, s: S, done: seq<Entry<A>>): Option<Done<S, A>>
    decreases |done|
  {
    if done == [] then Some(Done(s, []))
    else match Replayed(own, others, s, done[..|done| - 1])
         case None => None
         case Some(d) =>
           (match done[|done| - 1]
            case Own(a) =>
              (match own(d.now, a)
               case None => None
               case Some(next) => Some(Done(next, d.acts + [a])))
            case Round(env) =>
              var tried := Tried(others, d.now, env);
              Some(Done(tried.now, d.acts + tried.acts)))
  }

  /** A call, from the state and the history in which it began: `done` is what it and its
      environment did since. */
  datatype CallLog<S, A> = CallLog(s: S, h: seq<A>, done: seq<Entry<A>>)

  /** The call has led to state `s` and history `h`. */
  ghost predicate IsLog<S, A>(own: Step<S, A>, others: Step<S, A>, c: CallLog<S, A>, s: S, h: seq<A>) {
    var d := Replayed(own, others, c.s, c.done);
    d.Some? && s == d.value.now && h == c.h + d.value.acts
  }

  function Grown<S, A>(c: CallLog<S, A>, e: Entry<A>): CallLog<S, A> {
    c.(done := c.done + [e])
  }

  predicate SameCall<S(==), A(==)>(c: CallLog<S, A>, d: CallLog<S, A>) {
    d.s == c.s && d.h == c.h
  }

  // ----- what was done, in order

  /** The batches that were given to the environment. */
  function Rounds<A>(done: seq<Entry<A>>): seq<seq<A>>
    decreases |done|
  {
    if done == [] then []
    else
      var init, last := done[..|done| - 1], done[|done| - 1];
      Rounds(init) + if last.Round? then [last.env] else []
  }

  /** The call's own actions. */
  function Owns<A>(done: seq<Entry<A>>): seq<A>
    decreases |done|
  {
    if done == [] then []
    else
      var init, last := done[..|done| - 1], done[|done| - 1];
      Owns(init) + if last.Own? then [last.a] else []
  }

  /** The first `n` batches; empty ones beyond the end of `env`. */
  function FirstBatches<A>(env: seq<seq<A>>, n: nat): (r: seq<seq<A>>)
    ensures |r| == n
  {
    seq(n, k requires 0 <= k < n => Batch(env, k))
  }

  /** The environment has been given the first `n` batches, in order. */
  ghost predicate UpTo<S, A>(c: CallLog<S, A>, env: seq<seq<A>>, n: nat) {
    Rounds(c.done) == FirstBatches(env, n)
  }

  /** It has been given batches of `env` in order, and nothing else. */
  ghost predicate GaveBatches<S, A>(c: CallLog<S, A>, env: seq<seq<A>>) {
    UpTo(c, env, |Rounds(c.done)|)
  }

  /** All of them, and perhaps empty ones after them. */
  ghost predicate GaveAll<S, A>(c: CallLog<S, A>, env: seq<seq<A>>) {
    GaveBatches(c, env) && env <= Rounds(c.done)
  }

  // ----- how a log grows

  lemma LogBegins<S, A>(own: Step<S, A>, others: Step<S, A>, c: CallLog<S, A>, env: seq<seq<A>>)
    requires c.done == []
    ensures IsLog(own, others, c, c.s, c.h) && UpTo(c, env, 0) && Owns(c.done) == []
  {
  }

  /** An own action of the call. */
  lemma LogAct<S, A>(own: Step<S, A>, others: Step<S, A>, c: CallLog<S, A>, s: S, h: seq<A>, a: A)
    requires IsLog(own, others, c, s, h) && own(s, a).Some?
    ensures IsLog(own, others, Grown(c, Own(a)), own(s, a).value, h + [a])
    ensures Rounds(Grown(c, Own(a)).done) == Rounds(c.done)
    ensures Owns(Grown(c, Own(a)).done) == Owns(c.done) + [a]
  {
    assert Grown(c, Own(a)).done[..|c.done|] == c.done;
  }

  /** A batch of the environment. */
  lemma LogRound<S, A>(own: Step<S, A>, others: Step<S, A>, c: CallLog<S, A>, s: S, h: seq<A>, env: seq<A>)
    requires IsLog(own, others, c, s, h)
    ensures var tried := Tried(others, s, env);
            IsLog(own, others, Grown(c, Round(env)), tried.now, h + tried.acts)
  {
    assert Grown(c, Round(env)).done[..|c.done|] == c.done;
  }

  lemma OneRound<S, A>(c: CallLog<S, A>, env: seq<seq<A>>, n: nat)
    requires UpTo(c, env, n)
    ensures UpTo(Grown(c, Round(Batch(env, n))), env, n + 1)
    ensures Owns(Grown(c, Round(Batch(env, n))).done) == Owns(c.done)
  {
    assert Grown(c, Round(Batch(env, n))).done[..|c.done|] == c.done;
    assert FirstBatches(env, n) + [Batch(env, n)] == FirstBatches(env, n + 1);
  }

  lemma GaveUpTo<S, A>(c: CallLog<S, A>, env: seq<seq<A>>, n: nat)
    requires UpTo(c, env, n)
    ensures GaveBatches(c, env) && |Rounds(c.done)| == n && (n >= |env| ==> GaveAll(c, env))
  {
    if n >= |env| {
      assert FirstBatches(env, n)[..|env|] == env;
    }
  }
}
