// `ABA_Wrapper` as an object: its atomic operations update its fields, and `modify` is the
// retry loop of the source, run against an arbitrary environment.

module AbaWrapper {
  import opened Common
  import opened Schedules
  import opened Platforms
  import opened ModifyModel
  import opened ModifyAtomic

  class ABAWrapper<T(==)> {
    const platform: Platform
    var data: T               // content.data
    var counter: nat          // content.atomic[1], on compare-and-swap platforms
    var monitors: set<Tid>    // threads whose exclusive monitor is set
    var pc: seq<Pc<T>>
    ghost var spec: Spec<T>   // the atomic object this one implements
    ghost const start: State<T>
    ghost const startSpec: Spec<T>
    ghost var history: seq<Action<T>>

    ghost function View(): State<T>
      reads this
    {
      State(platform, data, counter, monitors, pc)
    }

    /** The object's life is a run whose trace is a history of the atomic object. */
    ghost predicate Valid()
      reads this
    {
      && Runs(start, history)
      && View() == After(start, history)
      && Replay(startSpec, Trace(start, history)) == Some(spec)
      && Matches(View(), spec)
    }

    constructor (platform: Platform, init: T, n: nat)
      ensures Valid() && View() == Init(platform, init, n) && history == []
      ensures startSpec == Spec(init, seq(n, _ => Out)) && start == View()
      ensures data == init && |pc| == n && monitors == {} && forall t :: 0 <= t < n ==> pc[t] == Idle
      ensures platform.Dwcas? ==> counter == if platform.w == 0 then 0 else 1
    {
      this.platform := platform;
      data, counter, monitors, pc := init, CounterAt(platform, 0), {}, seq(n, _ => Idle);
      spec, startSpec := Spec(init, seq(n, _ => Out)), Spec(init, seq(n, _ => Out));
      start, history := Init(platform, init, n), [];
    }

    ghost method Record(s: State<T>, a: Action<T>)
      requires Runs(start, history) && s == After(start, history)
      requires Replay(startSpec, Trace(start, history)) == Some(spec) && Matches(s, spec)
      requires Enabled(s, a) && View() == Apply(s, a)
      modifies this`spec, this`history
      ensures Valid() && history == old(history) + [a]
      ensures Trace(start, history) == old(Trace(start, history)) + Events(s, a)
    {
      StepIsAtomic(s, spec, a);
      RunsConcat(start, history, [a]);
      TraceConcat(start, history, [a]);
      assert Trace(s, [a]) == Events(s, a);
      ReplayConcat(startSpec, Trace(start, history), Events(s, a));
      spec := Replay(spec, Events(s, a)).value;
      history := history + [a];
    }

    /** The last thing that happened is that the call of thread `t` returned `success`. */
    ghost predicate JustReturned(t: Tid, success: bool)
      reads this
    {
      Runs(start, history) &&
      var es := Trace(start, history);
      es != [] && es[|es| - 1] == Respond(t, success)
    }

    // ----- atomic operations

    method Call(t: Tid, f: Modifier<T>)
      requires Valid() && t < |pc| && pc[t].Idle?
      modifies this
      ensures Valid() && Enabled(old(View()), Action.Call(t, f)) && View() == Apply(old(View()), Action.Call(t, f))
      ensures history == old(history) + [Action.Call(t, f)]
      ensures data == old(data) && counter == old(counter) && monitors == old(monitors) && pc == old(pc)[t := Load(f)]
    {
      ghost var s := View();
      pc := pc[t := Load(f)];
      Record(s, Action.Call(t, f));
    }

    /** `atomic_dw_load`, or `atomic_exclusive_load_aquire`. */
    method LoadCell(t: Tid)
      requires Valid() && t < |pc| && pc[t].Load?
      modifies this
      ensures Valid() && Enabled(old(View()), Action.LoadCell(t)) && View() == Apply(old(View()), Action.LoadCell(t))
      ensures history == old(history) + [Action.LoadCell(t)]
      ensures data == old(data) && counter == old(counter) && pc == old(pc)[t := Ready(old(pc)[t].f, data, counter)]
      ensures monitors == if platform.LlSc? then old(monitors) + {t} else old(monitors)
    {
      ghost var s := View();
      pc := pc[t := Ready(pc[t].f, data, counter)];
      if platform.LlSc? {
        monitors := monitors + {t};
      }
      Record(s, Action.LoadCell(t));
    }

    /** `modifier_func(cache.data, desired.data)`, and `atomic_exclusive_abort` when it refuses. */
    method RunModifier(t: Tid) returns (success: bool)
      requires Valid() && t < |pc| && pc[t].Ready?
      modifies this
      ensures Valid() && Enabled(old(View()), Action.RunModifier(t)) && View() == Apply(old(View()), Action.RunModifier(t))
      ensures history == old(history) + [Action.RunModifier(t)]
      ensures data == old(data) && counter == old(counter)
      ensures var was := old(pc)[t];
              && success == was.f(was.data).Some?
              && monitors == (if success then old(monitors) else old(monitors) - {t})
              && pc == old(pc)[t := if success then Commit(was.f, was.data, was.counter, was.f(was.data).value) else Idle]
      ensures !success ==> JustReturned(t, false)
    {
      ghost var s := View();
      var answer := pc[t].f(pc[t].data);
      success := answer.Some?;
      if success {
        pc := pc[t := Commit(pc[t].f, pc[t].data, pc[t].counter, answer.value)];
      } else {
        pc := pc[t := Idle];
        monitors := monitors - {t};
      }
      Record(s, Action.RunModifier(t));
    }

    /** `atomic_dw_cas` with the counter one up, or `atomic_exclusive_store_release`, which may fail
        for no reason (`spurious`). A failure writes nothing: the swap refills the cache, and the
        store-conditional sends its thread back to the load. */
    method Store(t: Tid, spurious: bool) returns (stored: bool)
      requires Valid() && t < |pc| && pc[t].Commit? && (platform.Dwcas? ==> !spurious)
      modifies this
      ensures Valid() && Enabled(old(View()), Action.Store(t, spurious)) && View() == Apply(old(View()), Action.Store(t, spurious))
      ensures history == old(history) + [Action.Store(t, spurious)]
      ensures var was := old(pc)[t];
              && stored == (if platform.Dwcas? then was.data == old(data) && was.counter == old(counter)
                            else t in old(monitors) && !spurious)
              && (spurious ==> !stored)
              && data == (if stored then was.desired else old(data))
              && counter == (if !stored then old(counter) else if was.counter + 1 < Range(platform) then was.counter + 1 else 0)
              && monitors == (if stored then {} else if platform.Dwcas? then old(monitors) else old(monitors) - {t})
              && pc == old(pc)[t :=
                   if stored then Idle
                   else if platform.Dwcas? then Ready(was.f, old(data), old(counter))
                   else Load(was.f)]
      ensures stored ==> JustReturned(t, true)
    {
      ghost var s := View();
      var cache := pc[t];
      if platform.Dwcas? {
        stored := cache.data == data && cache.counter == counter;
      } else {
        stored := t in monitors && !spurious;
      }
      if stored {
        data, counter := cache.desired, Increment(cache.counter, Range(platform));
        monitors := {};
        pc := pc[t := Idle];
      } else if platform.Dwcas? {
        pc := pc[t := Ready(cache.f, data, counter)];
      } else {
        monitors := monitors - {t};
        pc := pc[t := Load(cache.f)];
      }
      Record(s, Action.Store(t, spurious));
    }

    method Step(a: Action<T>)
      requires Valid() && Enabled(View(), a)
      modifies this
      ensures Valid() && View() == Apply(old(View()), a) && history == old(history) + [a]
    {
      match a {
        case Call(t, f) => Call(t, f);
        case LoadCell(t) => LoadCell(t);
        case RunModifier(t) => var _ := RunModifier(t);
        case Store(t, spurious) => var _ := Store(t, spurious);
      }
    }

    // ----- modify, as a program

    /** The call of thread `t` that `c` records has led to the present state. */
    ghost predicate On(c: CallLog<State<T>, Action<T>>, t: Tid)
      reads this
    {
      Valid() && t < |pc| && IsLog(Mine(t), Others(t), c, View(), history)
    }

    /** A batch of the other threads, tried in order: what cannot be done when its turn comes is
        skipped, everything else is done. */
    method Interfere(t: Tid, env: seq<Action<T>>, ghost c: CallLog<State<T>, Action<T>>)
      returns (ghost d: CallLog<State<T>, Action<T>>)
      requires On(c, t)
      modifies this
      ensures On(d, t) && d == Grown(c, Round(env))
      ensures var tried := Tried(Others(t), old(View()), env);
              View() == tried.now && history == old(history) + tried.acts
      ensures |pc| == |old(pc)| && pc[t] == old(pc)[t]
    {
      hide Runs, After, Replay, Trace, Matches, IsLog;
      ghost var s, h := View(), history;
      for i := 0 to |env|
        invariant Valid() && |pc| == |s.pc| && pc[t] == s.pc[t]
        invariant var tried := Tried(Others(t), s, env[..i]);
                  View() == tried.now && history == h + tried.acts
      {
        TriedOneMore(Others(t), s, env, i);
        if Enabled(State(platform, data, counter, monitors, pc), env[i]) && env[i].t != t {
          Step(env[i]);
        }
      }
      assert env[..|env|] == env;
      d := Grown(c, Round(env));
      LogRound(Mine(t), Others(t), c, s, h, env);
    }

    /** How an attempt may end: refused, stored, or to be retried from `again`. */
    ghost predicate AttemptEnds(t: Tid, success: bool, stored: bool, again: Pc<T>)
      reads this
    {
      t < |pc| &&
      if !success || stored then pc[t].Idle? && JustReturned(t, success) else pc[t] == again
    }

    /** The lambda and the store, each after one batch of the environment. An attempt that is
        neither disturbed nor marked spurious succeeds; one that is marked does not store. */
    method Attempt(t: Tid, f: Modifier<T>, env: seq<seq<Action<T>>>, i: nat, spurious: bool,
                   ghost c: CallLog<State<T>, Action<T>>)
      returns (success: bool, stored: bool, ghost d: CallLog<State<T>, Action<T>>)
      requires On(c, t) && UpTo(c, env, i) && (platform.Dwcas? ==> !spurious)
      requires pc[t] == Ready(f, data, counter) && (platform.LlSc? ==> t in monitors)
      modifies this
      ensures On(d, t) && SameCall(c, d)
      ensures if success then UpTo(d, env, i + 2) else UpTo(d, env, i + 1)
      ensures AttemptEnds(t, success, stored, if platform.Dwcas? then Ready(f, data, counter) else Load(f))
      ensures Owns(d.done) == Owns(c.done) + [Action.RunModifier(t)] + if success then [Action.Store(t, spurious)] else []
      ensures stored ==> success && !spurious
      ensures Batch(env, i) == [] && Batch(env, i + 1) == [] && !spurious ==> !success || stored
    {
      hide Runs, After, Replay, Trace, Matches, IsLog, UpTo, Owns;
      OneRound(c, env, i);
      d := Interfere(t, Batch(env, i), c);
      Acted(d, t, View(), history, Action.RunModifier(t));
      success := RunModifier(t);
      d := Grown(d, Own(Action.RunModifier(t)));
      stored := false;
      if success {
        OneRound(d, env, i + 1);
        d := Interfere(t, Batch(env, i + 1), d);
        Acted(d, t, View(), history, Action.Store(t, spurious));
        stored := Store(t, spurious);
        d := Grown(d, Own(Action.Store(t, spurious)));
      }
    }

    /** The beginning of the call, and of its log. */
    method Enter(t: Tid, f: Modifier<T>, env: seq<seq<Action<T>>>) returns (ghost d: CallLog<State<T>, Action<T>>)
      requires Valid() && t < |pc| && pc[t].Idle?
      modifies this
      ensures On(d, t) && d.s == old(View()) && d.h == old(history) && pc[t] == Load(f)
      ensures UpTo(d, env, 0) && Owns(d.done) == [Action.Call(t, f)]
    {
      hide Runs, After, Replay, Trace, Matches, IsLog, UpTo, Owns;
      ghost var c := CallLog(View(), history, []);
      LogBegins(Mine(t), Others(t), c, env);
      Acted(c, t, View(), history, Action.Call(t, f));
      Call(t, f);
      d := Grown(c, Own(Action.Call(t, f)));
    }

    /** `modify` on compare-and-swap: load once, then retry with the cache the failed swap left. */
    method ModifyDwcas(t: Tid, f: Modifier<T>, env: seq<seq<Action<T>>>)
      returns (success: bool, attempts: nat, ghost d: CallLog<State<T>, Action<T>>)
      requires Valid() && platform.Dwcas? && t < |pc| && pc[t].Idle?
      modifies this
      ensures On(d, t) && d.s == old(View()) && d.h == old(history)
      ensures pc[t].Idle? && JustReturned(t, success) && attempts > 0
      ensures Owns(d.done) == SwapActions(t, f, attempts, success)
      ensures UpTo(d, env, if success then 2 * attempts else 2 * attempts - 1)
    {
      hide Runs, After, Replay, Trace, Matches, IsLog, UpTo, Owns;
      d := Enter(t, f, env);
      ghost var c := d;
      Acted(d, t, View(), history, Action.LoadCell(t));
      LoadCell(t);
      d := Grown(d, Own(Action.LoadCell(t)));
      var stored := false;
      success, attempts := true, 0;
      while success && !stored
        invariant On(d, t) && SameCall(c, d)
        invariant AttemptEnds(t, success, stored, Ready(f, data, counter))
        invariant attempts == 0 ==> success && !stored
        invariant Owns(d.done) == SwapActions(t, f, attempts, success)
        invariant UpTo(d, env, if success then 2 * attempts else 2 * attempts - 1)
        decreases !stored && success, |env| - 2 * attempts
      {
        success, stored, d := Attempt(t, f, env, 2 * attempts, false, d);
        attempts := attempts + 1;
      }
    }

    /** `modify` on load-linked/store-conditional; `spurious` are the conditional stores that fail
        for no reason: every attempt that reaches its store uses up one of them. */
    method ModifyLlSc(t: Tid, f: Modifier<T>, env: seq<seq<Action<T>>>, spurious: seq<bool>)
      returns (success: bool, attempts: nat, ghost d: CallLog<State<T>, Action<T>>)
      requires Valid() && platform.LlSc? && t < |pc| && pc[t].Idle?
      modifies this
      ensures On(d, t) && d.s == old(View()) && d.h == old(history)
      ensures pc[t].Idle? && JustReturned(t, success) && attempts > 0
      ensures Owns(d.done) == ExclusiveActions(t, f, spurious, attempts, success)
      ensures UpTo(d, env, if success then 2 * attempts else 2 * attempts - 1)
      ensures success ==> !Marked(spurious, attempts - 1)
      ensures attempts > Marks(spurious, if success then attempts else attempts - 1)
    {
      hide Runs, After, Replay, Trace, Matches, IsLog, UpTo, Owns;
      d := Enter(t, f, env);
      ghost var c := d;
      var stored := false;
      success, attempts := true, 0;
      while success && !stored
        invariant On(d, t) && SameCall(c, d)
        invariant AttemptEnds(t, success, stored, Load(f))
        invariant attempts == 0 ==> success && !stored
        invariant Owns(d.done) == ExclusiveActions(t, f, spurious, attempts, success)
        invariant UpTo(d, env, if success then 2 * attempts else 2 * attempts - 1)
        invariant stored ==> !Marked(spurious, attempts - 1)
        decreases !stored && success,
                  (if 2 * attempts < |env| then |env| - 2 * attempts else 0)
                  + (if attempts < |spurious| then |spurious| - attempts else 0)
      {
        Acted(d, t, View(), history, Action.LoadCell(t));
        LoadCell(t);
        d := Grown(d, Own(Action.LoadCell(t)));
        success, stored, d := Attempt(t, f, env, 2 * attempts, Marked(spurious, attempts), d);
        attempts := attempts + 1;
      }
      MarksAreFew(spurious, attempts - 1);
    }
  }

  /** The steps of the threads other than `t`. */
  function Others<T(==)>(t: Tid): Step<State<T>, Action<T>> {
    (s: State<T>, a: Action<T>) => if Enabled(s, a) && a.t != t then Some(Apply(s, a)) else None
  }

  /** The steps of thread `t` itself. */
  function Mine<T(==)>(t: Tid): Step<State<T>, Action<T>> {
    (s: State<T>, a: Action<T>) => if Enabled(s, a) && a.t == t then Some(Apply(s, a)) else None
  }

  lemma Acted<T>(c: CallLog<State<T>, Action<T>>, t: Tid, s: State<T>, h: seq<Action<T>>, a: Action<T>)
    requires IsLog(Mine(t), Others(t), c, s, h) && Enabled(s, a) && a.t == t
    ensures IsLog(Mine(t), Others(t), Grown(c, Own(a)), Apply(s, a), h + [a])
    ensures forall env, n: nat :: UpTo(c, env, n) ==> UpTo(Grown(c, Own(a)), env, n)
    ensures Owns(Grown(c, Own(a)).done) == Owns(c.done) + [a]
  {
    LogAct(Mine(t), Others(t), c, s, h, a);
  }

  /** Attempt number `k` is to fail for no reason. */
  predicate Marked(spurious: seq<bool>, k: int) {
    0 <= k < |spurious| && spurious[k]
  }

  /** How many of the first `n` attempts are marked. */
  function Marks(spurious: seq<bool>, n: nat): nat {
    if n == 0 then 0 else Marks(spurious, n - 1) + if Marked(spurious, n - 1) then 1 else 0
  }

  lemma {:induction false} MarksAreFew(spurious: seq<bool>, n: nat)
    ensures Marks(spurious, n) <= n
  {
    if n == 0 {
    } else {
      MarksAreFew(spurious, n - 1);
    }
  }

  /** One call of `modify` on compare-and-swap, of `n` attempts, the last of them refused unless
      `success`: one load, and the swap in every attempt that is not refused. */
  function SwapActions<T>(t: Tid, f: Modifier<T>, n: nat, success: bool): seq<Action<T>> {
    if n == 0 then [Action.Call(t, f), Action.LoadCell(t)]
    else
      SwapActions(t, f, n - 1, true) + [Action.RunModifier(t)] + if success then [Action.Store(t, false)] else []
  }

  /** The same on load-linked/store-conditional: a load in every attempt, and the marks in order. */
  function ExclusiveActions<T>(t: Tid, f: Modifier<T>, spurious: seq<bool>, n: nat, success: bool): seq<Action<T>> {
    if n == 0 then [Action.Call(t, f)]
    else
      ExclusiveActions(t, f, spurious, n - 1, true) + [Action.LoadCell(t), Action.RunModifier(t)]
      + if success then [Action.Store(t, Marked(spurious, n - 1))] else []
  }
}
