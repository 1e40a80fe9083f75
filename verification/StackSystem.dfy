// The stacks as one object over a shared memory: its atomic operations update its fields;
// `push`, `pop` and the test's draining loop are programs over them.

module StackSystem {
  import opened Common
  import opened Schedules
  import opened Platforms
  import opened StackModel
  import opened StackAtomic
  import opened StackRefinement
  import opened StackRuns

  /** Everything an object goes through: its state, the atomic stacks, the events and the actions. */
  datatype Life = Lived(s: State, p: Spec, trace: seq<Event>, history: seq<Action>)

  /** Action `a` was carried out, once. */
  ghost predicate Stepped(before: Life, a: Action, after: Life) {
    && Enabled(before.s, a) && after.s == Apply(before.s, a)
    && Some(after.p) == Replay(before.p, Events(before.s, a))
    && after.trace == before.trace + Events(before.s, a)
    && after.history == before.history + [a]
  }

  /** How an attempt of `modify` ends. */
  datatype Outcome = Returned | Again | Overtaken

  class Stacks {
    const platform: Platform
    var mem: map<Block, Word>         // the first word of every block
    var cells: seq<Cell>              // the wrapped top of every stack
    var monitors: seq<set<Tid>>
    var pc: seq<Pc>
    var versions: seq<nat>            // bookkeeping: modifications of every stack so far
    var spec: Spec                    // bookkeeping: the atomic stacks
    ghost const start: State
    ghost const startSpec: Spec
    ghost var history: seq<Action>
    ghost var trace: seq<Event>

    function View(): State
      reads this
    {
      State(platform, mem, cells, versions, monitors, pc)
    }

    /** The object's life is a lawful run within the bound; so it matches the atomic stacks. */
    ghost predicate Valid()
      reads this
    {
      Ends(start, startSpec, history, View(), spec) && Matches(View(), spec) && trace == Trace(start, history)
    }

    constructor (platform: Platform, mem: map<Block, Word>, place: map<Block, Place>, stacks: nat, n: nat)
      requires AllHeld(mem, place)
      ensures Valid() && View() == Init(platform, mem, stacks, n) && spec == InitSpec(place, stacks, n)
      ensures history == [] && trace == []
      ensures this.platform == platform && this.mem == mem && versions == seq(stacks, _ => 0) && monitors == seq(stacks, _ => {}) && pc == seq(n, _ => Idle)
      ensures |cells| == stacks && forall i :: 0 <= i < stacks ==> cells[i].top == NULL
    {
      this.platform, this.mem := platform, mem;
      cells := seq(stacks, _ => Cell(NULL, CounterAt(platform, 0)));
      monitors, pc := seq(stacks, _ => {}), seq(n, _ => Idle);
      versions, spec := seq(stacks, _ => 0), InitSpec(place, stacks, n);
      start, startSpec, history := Init(platform, mem, stacks, n), InitSpec(place, stacks, n), [];
      trace := [];
      new;
      InitMatches(platform, mem, place, stacks, n);
    }

    ghost function Life(): Life
      reads this
    {
      Lived(View(), spec, trace, history)
    }

    /** An object in the middle of its life: any state that matches the atomic stacks. */
    constructor Resumed(s: State, p: Spec)
      requires Matches(s, p)
      ensures Valid() && View() == s && spec == p && history == [] && trace == []
    {
      platform, mem, cells, monitors, pc, versions, spec := s.platform, s.mem, s.cells, s.monitors, s.pc, s.versions, p;
      start, startSpec, history, trace := s, p, [], [];
    }

    /** One good step has been carried out on the fields; write it down. */
    method Record(s: State, a: Action)
      requires Ends(start, startSpec, history, s, spec) && Matches(s, spec) && trace == Trace(start, history)
      requires Allowed(s, spec, a) && View() == Apply(s, a)
      modifies this`spec, this`history, this`trace
      ensures Valid() && Stepped(Lived(s, old(spec), old(trace), old(history)), a, Life())
    {
      StepSimulated(s, spec, a);
      ghost var q := Replay(spec, Events(s, a)).value;
      OneMoreStep(start, startSpec, history, spec, a, q);
      TraceMore(start, history, a);
      spec := Replay(spec, Events(s, a)).value;
      history, trace := history + [a], trace + Events(s, a);
    }

    // ----- atomic operations

    /** A call of push or pop; a null block is refused at once. */
    method Invoke(t: Tid, op: Op, i: nat)
      requires Valid() && t < |pc| && pc[t].Idle? && i < |cells|
      requires op.Push? && op.b != NULL ==> op.b in spec.place && spec.place[op.b] == Held(t)
      modifies this
      ensures Valid() && Stepped(old(Life()), Action.Invoke(t, op, i), Life())
      ensures mem == old(mem) && cells == old(cells) && versions == old(versions) && monitors == old(monitors)
      ensures pc == if op == Op.Push(NULL) then old(pc) else old(pc)[t := Load(op, i)]
    {
      var s := View();
      CallsSized(s, spec, t);
      if op != Op.Push(NULL) {
        pc := pc[t := Load(op, i)];
      }
      Record(s, Action.Invoke(t, op, i));
    }

    /** The load of the cell into the cache. */
    method LoadCell(t: Tid)
      requires Valid() && t < |pc| && pc[t].Load?
      modifies this
      ensures Valid() && Stepped(old(Life()), Action.LoadCell(t), Life())
      ensures mem == old(mem) && cells == old(cells) && versions == old(versions)
      ensures var op, i := old(pc)[t].op, old(pc)[t].i;
              && i < |cells| == |versions| == |old(monitors)|
              && pc == old(pc)[t := Ready(op, i, cells[i], versions[i])]
              && monitors == if platform.LlSc? then old(monitors)[i := old(monitors)[i] + {t}] else old(monitors)
    {
      var s := View();
      CallsSized(s, spec, t);
      var op, i := pc[t].op, pc[t].i;
      pc := pc[t := Ready(op, i, cells[i], versions[i])];
      if platform.LlSc? {
        monitors := monitors[i := monitors[i] + {t}];
      }
      Record(s, Action.LoadCell(t));
    }

    /** The lambda of `push` or `pop`; `w` is what a pop's read of its cached top returns: the word
        in memory if the stack was not modified since the load, and any word at all otherwise. */
    method RunLambda(t: Tid, w: Word) returns (success: bool)
      requires Valid() && t < |pc| && pc[t].Ready?
      requires var me := pc[t];
               me.op.Pop? && me.cache.top != NULL && me.i < |versions| && me.ver == versions[me.i] ==>
                 me.cache.top in mem && mem[me.cache.top] == w
      modifies this
      ensures Valid() && Stepped(old(Life()), Action.RunLambda(t, w), Life())
      ensures cells == old(cells) && versions == old(versions)
      ensures var me := old(pc)[t];
              && me.i < |old(monitors)|
              && success == (me.op.Push? || me.cache.top != NULL)
              && mem == (if me.op.Push? then old(mem)[me.op.b := me.cache.top] else old(mem))
              && monitors == (if success then old(monitors) else old(monitors)[me.i := old(monitors)[me.i] - {t}])
              && pc == old(pc)[t :=
                   if success then Commit(me.op, me.i, me.cache, me.ver, if me.op.Push? then me.op.b else w) else Idle]
    {
      var s := View();
      CallsSized(s, spec, t);
      var me := pc[t];
      match me.op {
        case Push(b) =>
          mem := mem[b := me.cache.top];
          pc := pc[t := Commit(me.op, me.i, me.cache, me.ver, b)];
          success := true;
        case Pop =>
          success := me.cache.top != NULL;
          if success {
            pc := pc[t := Commit(me.op, me.i, me.cache, me.ver, w)];
          } else {
            monitors := monitors[me.i := monitors[me.i] - {t}];
            pc := pc[t := Idle];
          }
      }
      Record(s, Action.RunLambda(t, w));
    }

    /** The conditional store. A failure writes nothing: the swap refills the cache, and the
        store-conditional, which may fail for no reason (`spurious`), goes back to the load. */
    method Store(t: Tid, spurious: bool) returns (stored: bool)
      requires Valid() && t < |pc| && pc[t].Commit? && (platform.Dwcas? ==> !spurious)
      requires var me := pc[t];
               platform.Dwcas? && me.op.Pop? && me.i < |cells| == |versions| && me.cache == cells[me.i] ==>
                 versions[me.i] < me.ver + Range(platform)
      modifies this
      ensures Valid() && Stepped(old(Life()), Action.Store(t, spurious), Life())
      ensures stored == Succeeds(old(View()), Action.Store(t, spurious)) && (spurious ==> !stored)
    {
      var s := View();
      StoreAllowed(t, spurious);
      StoreLaw(s, t, spurious);
      hide Valid, Stepped, Apply, Allowed, Enabled;
      stored := WouldStore(t) && !spurious;
      if stored {
        Succeed(t);
      } else {
        Fail(t);
      }
      assert View() == Apply(s, Action.Store(t, spurious));
      Record(s, Action.Store(t, spurious));
    }

    lemma StoreAllowed(t: Tid, spurious: bool)
      requires Valid() && t < |pc| && pc[t].Commit? && (platform.Dwcas? ==> !spurious)
      requires var me := pc[t];
               platform.Dwcas? && me.op.Pop? && me.i < |cells| == |versions| && me.cache == cells[me.i] ==>
                 versions[me.i] < me.ver + Range(platform)
      ensures Allowed(View(), spec, Action.Store(t, spurious))
      ensures Sized(View()) && pc[t].i < |cells|
      ensures Succeeds(View(), Action.Store(t, spurious)) == (WouldStore(t) && !spurious)
      ensures Ends(start, startSpec, history, View(), spec) && Matches(View(), spec) && trace == Trace(start, history)
    {
      CallsSized(View(), spec, t);
    }

    /** What a successful store does to the memory cell and to its thread. */
    method Succeed(t: Tid)
      requires t < |pc| && pc[t].Commit? && pc[t].i < |cells| == |versions| == |monitors|
      modifies this`cells, this`versions, this`monitors, this`pc
      ensures var me := old(pc)[t];
              && cells == old(cells)[me.i := Cell(me.desired, Increment(me.cache.counter, Range(platform)))]
              && versions == old(versions)[me.i := old(versions)[me.i] + 1]
              && monitors == old(monitors)[me.i := {}] && pc == old(pc)[t := Idle]
    {
      var me := pc[t];
      cells := cells[me.i := Cell(me.desired, Increment(me.cache.counter, Range(platform)))];
      versions := versions[me.i := versions[me.i] + 1];
      monitors := monitors[me.i := {}];
      pc := pc[t := Idle];
    }

    /** What a failed store leaves its thread with. */
    method Fail(t: Tid)
      requires t < |pc| && pc[t].Commit? && pc[t].i < |cells| == |versions| == |monitors|
      modifies this`monitors, this`pc
      ensures var me := old(pc)[t];
              && monitors == (if platform.Dwcas? then old(monitors) else old(monitors)[me.i := old(monitors)[me.i] - {t}])
              && pc == old(pc)[t := if platform.Dwcas? then Ready(me.op, me.i, cells[me.i], versions[me.i]) else Load(me.op, me.i)]
    {
      var me := pc[t];
      if platform.Dwcas? {
        pc := pc[t := Ready(me.op, me.i, cells[me.i], versions[me.i])];
      } else {
        monitors := monitors[me.i := monitors[me.i] - {t}];
        pc := pc[t := Load(me.op, me.i)];
      }
    }

    /** The client writes into a block in its hands. */
    method Scribble(t: Tid, b: Block, w: Word)
      requires Valid() && t < |pc| && pc[t].Idle? && b in spec.place && spec.place[b] == Held(t)
      modifies this
      ensures Valid() && Stepped(old(Life()), Action.Scribble(t, b, w), Life())
      ensures mem == old(mem)[b := w] && cells == old(cells) && versions == old(versions)
      ensures monitors == old(monitors) && pc == old(pc) && spec == old(spec)
    {
      var s := View();
      CallsSized(s, spec, t);
      ReplayOne(spec, Written(t, b));
      mem := mem[b := w];
      Record(s, Action.Scribble(t, b, w));
    }

    /** The client hands a block it holds to another thread, which then may push it. */
    method Give(t: Tid, u: Tid, b: Block)
      requires Valid() && t < |pc| && u < |pc| && pc[t].Idle? && b in spec.place && spec.place[b] == Held(t)
      modifies this
      ensures Valid() && Stepped(old(Life()), Action.Give(t, u, b), Life())
      ensures View() == old(View()) && spec == old(spec).(place := old(spec).place[b := Held(u)])
    {
      CallsSized(View(), spec, t);
      ReplayOne(spec, Given(t, u, b));
      Record(View(), Action.Give(t, u, b));
    }

    // ----- push and pop amid other threads

    /** Carries out an allowed action. */
    method Step(a: Action)
      requires Valid() && Allowed(View(), spec, a)
      modifies this
      ensures Valid() && Stepped(old(Life()), a, Life())
    {
      match a {
        case Invoke(t, op, i) => Invoke(t, op, i);
        case LoadCell(t) => LoadCell(t);
        case RunLambda(t, w) => var _ := RunLambda(t, w);
        case Store(t, spurious) => var _ := Store(t, spurious);
        case Scribble(t, b, w) => Scribble(t, b, w);
        case Give(t, u, b) => Give(t, u, b);
      }
    }

    function Now(): Joint
      reads this
    {
      Joint(View(), spec)
    }

    /** The call of thread `t` that `c` records has led to the present state. */
    ghost predicate On(c: StackLog, t: Tid)
      reads this
    {
      Valid() && t < |pc| && Sized(View()) && IsLog(Mine(t), Others(t), c, Now(), history)
    }

    /** A batch of the other threads, tried in order: what they may not do when its turn comes is
        skipped, everything else is done. Each action is one more modification at most. */
    method Interfere(t: Tid, env: seq<Action>, ghost c: StackLog) returns (ghost d: StackLog)
      requires On(c, t)
      modifies this
      ensures On(d, t) && d == Grown(c, Round(env))
      ensures var tried := Tried(Others(t), old(Now()), env);
              Now() == tried.now && history == old(history) + tried.acts
      ensures OthersMoved(old(View()), View(), t, |env|)
      ensures env == [] ==> View() == old(View())
    {
      hide Valid, IsLog, Stepped, Others, Next, OthersMoved;
      var before := View();
      ghost var s, h := Now(), history;
      OthersRest(before, t);
      for i := 0 to |env|
        invariant Valid() && OthersMoved(before, View(), t, i)
        invariant var tried := Tried(Others(t), s, env[..i]);
                  Now() == tried.now && history == h + tried.acts
        invariant i == 0 ==> View() == before
      {
        TriedOneMore(Others(t), s, env, i);
        ghost var life := Life();
        OthersDo(Now(), env[i], t);
        if env[i].t != t && Allowed(View(), spec, env[i]) {
          Step(env[i]);
          OthersAct(before, life, env[i], Life(), t, i);
        } else {
          OthersWait(before, View(), t, i);
        }
      }
      OthersSized(before, View(), t, |env|);
      assert env[..|env|] == env;
      d := Grown(c, Round(env));
      LogRound(Mine(t), Others(t), c, s, h, env);
    }

    /** The last thing that happened is that the call of thread `t` returned `result`. */
    ghost predicate JustReturned(t: Tid, result: Word)
      reads this
    {
      t < |pc| && pc[t].Idle? && trace != [] && trace[|trace| - 1] == Respond(t, result)
    }

    /** The swap of this pop is about to succeed, after at least one full turn of the counter. */
    ghost predicate IsOvertaken(t: Tid)
      reads this
    {
      && platform.Dwcas? && t < |pc| && pc[t].Commit? && pc[t].op.Pop? && pc[t].i < |cells| == |versions|
      && pc[t].cache == cells[pc[t].i]
      && versions[pc[t].i] >= pc[t].ver + Range(platform)
    }

    /** How an attempt may end; before the next one there may be a cell to load. */
    ghost predicate AttemptEnds(t: Tid, op: Op, i: nat, o: Outcome, result: Word)
      reads this
    {
      match o
      case Returned => JustReturned(t, result)
      case Again =>
        && t < |pc| && i < |cells| && Sized(View())
        && pc[t] == if platform.LlSc? then Load(op, i) else Ready(op, i, cells[i], versions[i])
      case Overtaken => op.Pop? && IsOvertaken(t) && pc[t].i == i
    }

    /** The lambda and the store, each after one batch of the environment. `noise` is what a read of
        a block that has left the stack may return. */
    method Attempt(t: Tid, op: Op, i: nat, env: seq<seq<Action>>, k: nat, noise: Word, spurious: bool, ghost c: StackLog)
      returns (o: Outcome, result: Word, ghost used: nat, ghost d: StackLog)
      requires On(c, t) && UpTo(c, env, k) && i < |cells| && pc[t] == Ready(op, i, cells[i], versions[i])
      requires platform.LlSc? ==> t in monitors[i]
      requires platform.Dwcas? ==> !spurious
      modifies this
      ensures On(d, t) && SameCall(c, d) && |pc| == old(|pc|)
      ensures AttemptEnds(t, op, i, o, result) && (op.Push? ==> result == NULL)
      ensures used <= 1 && UpTo(d, env, k + 1 + used) && (o != Returned ==> used == 1)
      ensures MoreOf(Owns(c.done), Owns(d.done))
      ensures StoreMarks(Owns(d.done)) == StoreMarks(Owns(c.done)) + if used == 1 && o != Overtaken then [spurious] else []
      ensures used == 1 && spurious ==> o == Again
      ensures Batch(env, k) == [] && Batch(env, k + 1) == [] && !spurious ==> o != Again
      ensures platform.Dwcas? && |Batch(env, k)| + |Batch(env, k + 1)| < Range(platform) ==> o != Overtaken
    {
      hide Valid, IsLog, UpTo, Owns, StoreMarks;
      result := if op.Pop? then cells[i].top else NULL;
      var success;
      success, d := LambdaAmid(t, env, k, noise, c);
      o, used := Returned, 0;
      if success {
        o, d := StoreAmid(t, env, k + 1, spurious, d);
        used := 1;
      }
    }

    /** The first half of an attempt: the lambda refuses, or is ready to store. */
    method LambdaAmid(t: Tid, env: seq<seq<Action>>, k: nat, noise: Word, ghost c: StackLog)
      returns (success: bool, ghost d: StackLog)
      requires On(c, t) && UpTo(c, env, k) && pc[t].Ready? && pc[t].i < |cells|
      modifies this
      ensures On(d, t) && SameCall(c, d) && UpTo(d, env, k + 1)
      ensures |pc| == old(|pc|) && |cells| == old(|cells|)
      ensures MoreOf(Owns(c.done), Owns(d.done)) && StoreMarks(Owns(d.done)) == StoreMarks(Owns(c.done))
      ensures success == (old(pc[t]).op.Push? || old(pc[t]).cache.top != NULL)
      ensures !success ==> JustReturned(t, NULL)
      ensures success ==> pc[t].Commit? && SameTry(old(pc[t]), pc[t])
      ensures versions[old(pc[t]).i] <= old(versions[pc[t].i]) + |Batch(env, k)|
      ensures Batch(env, k) == [] ==> cells == old(cells) && (success ==> monitors == old(monitors))
    {
      hide Valid, IsLog, UpTo, Owns, StoreMarks;
      OneRound(c, env, k);
      d := Interfere(t, Batch(env, k), c);
      ReadOk(t);
      var w := if pc[t].op.Pop? && pc[t].cache.top != NULL && pc[t].ver == versions[pc[t].i] then mem[pc[t].cache.top] else noise;
      Acted(d, t, Now(), history, Action.RunLambda(t, w));
      success := RunLambda(t, w);
      d := Grown(d, Own(Action.RunLambda(t, w)));
    }

    /** The cache of thread `t` is still good. */
    predicate WouldStore(t: Tid)
      requires t < |pc| && pc[t].Commit? && pc[t].i < |cells| == |monitors|
      reads this
    {
      if platform.Dwcas? then pc[t].cache == cells[pc[t].i] else t in monitors[pc[t].i]
    }

    /** The second half of an attempt. */
    method StoreAmid(t: Tid, env: seq<seq<Action>>, k: nat, spurious: bool, ghost c: StackLog)
      returns (o: Outcome, ghost d: StackLog)
      requires On(c, t) && UpTo(c, env, k) && pc[t].Commit? && pc[t].i < |cells| && (platform.Dwcas? ==> !spurious)
      modifies this
      ensures On(d, t) && SameCall(c, d) && UpTo(d, env, k + 1) && |pc| == old(|pc|)
      ensures MoreOf(Owns(c.done), Owns(d.done))
      ensures StoreMarks(Owns(d.done)) == StoreMarks(Owns(c.done)) + if o == Overtaken then [] else [spurious]
      ensures AttemptEnds(t, old(pc[t].op), old(pc[t].i), o, if old(pc[t].op).Pop? then old(pc[t].cache.top) else NULL)
      ensures spurious ==> o == Again
      ensures Batch(env, k) == [] && !spurious && old(WouldStore(t)) ==> o != Again
      ensures old(versions[pc[t].i]) + |Batch(env, k)| < old(pc[t]).ver + Range(platform) ==> o != Overtaken
    {
      hide Valid, IsLog, UpTo, Owns, StoreMarks;
      OneRound(c, env, k);
      d := Interfere(t, Batch(env, k), c);
      var me := pc[t];
      if platform.Dwcas? && me.op.Pop? && me.cache == cells[me.i] && versions[me.i] >= me.ver + Range(platform) {
        o := Overtaken;
      } else {
        o, d := StoreNow(t, spurious, d);
      }
    }

    method StoreNow(t: Tid, spurious: bool, ghost c: StackLog) returns (o: Outcome, ghost d: StackLog)
      requires On(c, t) && pc[t].Commit? && pc[t].i < |cells| && (platform.Dwcas? ==> !spurious) && !IsOvertaken(t)
      modifies this
      ensures On(d, t) && d == Grown(c, Own(Action.Store(t, spurious))) && |pc| == old(|pc|) && o != Overtaken
      ensures AttemptEnds(t, old(pc[t].op), old(pc[t].i), o, if old(pc[t].op).Pop? then old(pc[t].cache.top) else NULL)
      ensures o == Returned <==> old(WouldStore(t)) && !spurious
      ensures forall env, n: nat :: UpTo(c, env, n) ==> UpTo(d, env, n)
      ensures MoreOf(Owns(c.done), Owns(d.done)) && StoreMarks(Owns(d.done)) == StoreMarks(Owns(c.done)) + [spurious]
    {
      hide Valid, IsLog, UpTo, Owns, StoreMarks;
      StoreLaw(View(), t, spurious);
      Acted(c, t, Now(), history, Action.Store(t, spurious));
      var stored := Store(t, spurious);
      d := Grown(c, Own(Action.Store(t, spurious)));
      o := if stored then Returned else Again;
    }

    /** The first load, or the load of every round of the store-conditional loop. */
    method LoadIfNeeded(t: Tid, op: Op, i: nat, env: seq<seq<Action>>, k: nat, ghost c: StackLog) returns (ghost d: StackLog)
      requires On(c, t) && UpTo(c, env, k) && i < |cells|
      requires pc[t] == Load(op, i) || (platform.Dwcas? && pc[t] == Ready(op, i, cells[i], versions[i]))
      modifies this
      ensures On(d, t) && SameCall(c, d) && UpTo(d, env, k) && |pc| == old(|pc|)
      ensures MoreOf(Owns(c.done), Owns(d.done)) && StoreMarks(Owns(d.done)) == StoreMarks(Owns(c.done))
      ensures i < |cells| && pc[t] == Ready(op, i, cells[i], versions[i])
      ensures platform.LlSc? ==> t in monitors[i]
    {
      hide Valid, IsLog, UpTo, Owns, StoreMarks;
      d := c;
      if pc[t].Load? {
        Acted(c, t, Now(), history, Action.LoadCell(t));
        LoadCell(t);
        d := Grown(c, Own(Action.LoadCell(t)));
      }
    }

    method LoadAndTry(t: Tid, op: Op, i: nat, env: seq<seq<Action>>, k: nat, noise: Word, spurious: bool, ghost c: StackLog)
      returns (o: Outcome, result: Word, ghost used: nat, ghost d: StackLog)
      requires On(c, t) && UpTo(c, env, k) && AboutToTry(t, op, i) && (platform.Dwcas? ==> !spurious)
      modifies this
      ensures On(d, t) && SameCall(c, d) && |pc| == old(|pc|)
      ensures AttemptEnds(t, op, i, o, result) && (op.Push? ==> result == NULL)
      ensures o == Again ==> AboutToTry(t, op, i)
      ensures o == Overtaken ==> platform.Dwcas?
      ensures used <= 1 && UpTo(d, env, k + 1 + used) && (o != Returned ==> used == 1)
      ensures MoreOf(Owns(c.done), Owns(d.done))
      ensures StoreMarks(Owns(d.done)) == StoreMarks(Owns(c.done)) + if used == 1 && o != Overtaken then [spurious] else []
      ensures used == 1 && spurious ==> o == Again
      ensures Batch(env, k) == [] && Batch(env, k + 1) == [] && !spurious ==> o != Again
      ensures platform.Dwcas? && |Batch(env, k)| + |Batch(env, k + 1)| < Range(platform) ==> o != Overtaken
    {
      hide Valid, IsLog, UpTo, Owns, StoreMarks;
      d := LoadIfNeeded(t, op, i, env, k, c);
      o, result, used, d := Attempt(t, op, i, env, k, noise, spurious, d);
    }

    /** The call, and the beginning of its log. */
    method Start(t: Tid, op: Op, i: nat, env: seq<seq<Action>>) returns (ghost d: StackLog)
      requires Valid() && t < |pc| && pc[t].Idle? && i < |cells| && op != Op.Push(NULL)
      requires op.Push? ==> op.b in spec.place && spec.place[op.b] == Held(t)
      modifies this
      ensures On(d, t) && d.s == old(Now()) && d.h == old(history) && UpTo(d, env, 0)
      ensures i < |cells| && |pc| == old(|pc|) && pc[t] == Load(op, i) && AboutToTry(t, op, i)
      ensures Owns(d.done) == [Action.Invoke(t, op, i)] && StoreMarks(Owns(d.done)) == []
    {
      InvokeAllowed(t, op, i);
      hide Valid, Allowed, IsLog, UpTo, Owns, StoreMarks;
      ghost var c := CallLog(Now(), history, []);
      LogBegins(Mine(t), Others(t), c, env);
      Acted(c, t, Now(), history, Action.Invoke(t, op, i));
      assert [] + [Action.Invoke(t, op, i)] == [Action.Invoke(t, op, i)];
      Invoke(t, op, i);
      d := Grown(c, Own(Action.Invoke(t, op, i)));
    }

    lemma ReadOk(t: Tid)
      requires Valid() && t < |pc| && pc[t].Ready?
      ensures Sized(View()) && pc[t].i < |cells|
      ensures var me := pc[t];
              me.op.Pop? && me.cache.top != NULL && me.ver == versions[me.i] ==> me.cache.top in mem
    {
      ReadPossible(View(), spec, t);
    }

    lemma InvokeAllowed(t: Tid, op: Op, i: nat)
      requires Valid() && t < |pc| && pc[t].Idle? && i < |cells|
      requires op.Push? && op.b != NULL ==> op.b in spec.place && spec.place[op.b] == Held(t)
      ensures Sized(View()) && Allowed(View(), spec, Action.Invoke(t, op, i))
    {
      CallsSized(View(), spec, t);
    }

    /** `modify` with the lambda of `op`; `env` is what the others do between any two accesses to
        shared memory, and `spurious` which store-conditionals fail for no reason. */
    method Modify(t: Tid, op: Op, i: nat, env: seq<seq<Action>>, noise: Word, spurious: seq<bool>)
      returns (o: Outcome, result: Word, attempts: nat, ghost d: StackLog)
      requires Valid() && t < |pc| && pc[t].Idle? && i < |cells| && op != Op.Push(NULL)
      requires op.Push? ==> op.b in spec.place && spec.place[op.b] == Held(t)
      modifies this
      ensures On(d, t) && d.s == old(Now()) && d.h == old(history) && |pc| == old(|pc|)
      ensures o != Again && AttemptEnds(t, op, i, o, result) && (op.Push? ==> result == NULL)
      ensures IsOneCall(Owns(d.done), t, op, i) && GaveBatches(d, env)
      ensures attempts > 0 && FollowsMarks(platform, StoreMarks(Owns(d.done)), spurious, attempts, o)
      ensures WithinTurn(platform, env) ==> o == Returned
    {
      hide Valid, On, IsLog, UpTo, Owns, StoreMarks, FollowsMarks, MoreOf, WithinTurn, AttemptEnds, AboutToTry;
      d := Start(t, op, i, env);
      ghost var c, used := d, 1;
      MarksBegin(platform, spurious);
      MoreBegins(Owns(c.done));
      o, result, attempts := Again, NULL, 0;
      while o == Again
        invariant On(d, t) && SameCall(c, d) && |pc| == old(|pc|)
        invariant o == Again ==> AboutToTry(t, op, i)
        invariant o != Again ==> attempts > 0 && AttemptEnds(t, op, i, o, result)
        invariant op.Push? ==> result == NULL
        invariant MoreOf(Owns(c.done), Owns(d.done))
        invariant attempts == 0 ==> o == Again && UpTo(d, env, 0)
        invariant attempts > 0 ==> used <= 1 && UpTo(d, env, 2 * attempts - 1 + used) && (o == Again ==> used == 1)
        invariant FollowsMarks(platform, StoreMarks(Owns(d.done)), spurious, attempts, o)
        invariant WithinTurn(platform, env) ==> o != Overtaken
        decreases o == Again,
                  (if 2 * attempts < |env| then |env| - 2 * attempts else 0)
                  + (if attempts < |spurious| then |spurious| - attempts else 0)
      {
        var mark := MarkOf(platform, spurious, attempts);
        ghost var own := Owns(d.done);
        o, result, used, d := LoadAndTry(t, op, i, env, 2 * attempts, noise, mark, d);
        if WithinTurn(platform, env) && platform.Dwcas? {
          TurnHolds(platform, env, 2 * attempts);
        }
        MoreMore(Owns(c.done), own, Owns(d.done));
        MarksGoOn(platform, StoreMarks(own), spurious, attempts, o, used, mark);
        attempts := attempts + 1;
      }
      GaveUpTo(d, env, 2 * attempts - 1 + used);
    }

    /** At the head of the loop of `modify`: the cache is fresh, or yet to be loaded. */
    ghost predicate AboutToTry(t: Tid, op: Op, i: nat)
      reads this
    {
      && t < |pc| && i < |cells| && Sized(View())
      && (pc[t] == Load(op, i) || (platform.Dwcas? && pc[t] == Ready(op, i, cells[i], versions[i])))
    }

    /** `Stack::push` amid other threads. */
    method PushAmid(t: Tid, i: nat, b: Block, env: seq<seq<Action>>, spurious: seq<bool>)
      returns (threw: bool, ghost d: StackLog)
      requires Valid() && t < |pc| && pc[t].Idle? && i < |cells|
      requires b != NULL ==> b in spec.place && spec.place[b] == Held(t)
      modifies this
      ensures Valid() && |pc| == old(|pc|) && threw == (b == NULL)
      ensures threw ==> View() == old(View()) && spec == old(spec) && history == old(history)
      ensures !threw ==>
                && On(d, t) && d.s == old(Now()) && d.h == old(history)
                && IsOneCall(Owns(d.done), t, Op.Push(b), i) && GaveBatches(d, env)
                && JustReturned(t, NULL)
    {
      threw := b == NULL;
      d := CallLog(Now(), history, []);
      if !threw {
        var _, _, _, e := Modify(t, Op.Push(b), i, env, NULL, spurious);
        d := e;
      }
    }

    /** `Stack::pop` amid other threads: it returns what the atomic pop returns, unless the others
        take the counter round at least once during one of its attempts. */
    method PopAmid(t: Tid, i: nat, env: seq<seq<Action>>, noise: Word, spurious: seq<bool>)
      returns (overtaken: bool, top: Word, ghost d: StackLog)
      requires Valid() && t < |pc| && pc[t].Idle? && i < |cells|
      modifies this
      ensures On(d, t) && d.s == old(Now()) && d.h == old(history) && |pc| == old(|pc|)
      ensures IsOneCall(Owns(d.done), t, Op.Pop, i) && GaveBatches(d, env)
      ensures if overtaken then IsOvertaken(t) && pc[t].i == i else JustReturned(t, top)
      ensures WithinTurn(platform, env) ==> !overtaken
    {
      var o, attempts;
      o, top, attempts, d := Modify(t, Op.Pop, i, env, noise, spurious);
      overtaken := o == Overtaken;
    }

    // ----- programs of one thread while the others rest

    /** Thread `t` is at the head of the loop of `modify`, with a fresh cache. */
    ghost predicate AtHead(t: Tid, op: Op, i: nat)
      reads this
    {
      && t < |pc| == |spec.calls| && i < |cells| == |versions| == |monitors|
      && pc[t] == Ready(op, i, cells[i], versions[i])
      && (platform.LlSc? ==> t in monitors[i])
    }

    /** The call, and the first load. */
    method Enter(t: Tid, op: Op, i: nat)
      requires Valid() && t < |pc| && pc[t].Idle? && i < |cells|
      requires op.Push? ==> op.b != NULL && op.b in spec.place && spec.place[op.b] == Held(t)
      modifies this
      ensures Valid() && AtHead(t, op, i)
      ensures mem == old(mem) && cells == old(cells) && |pc| == old(|pc|) && pc == old(pc)[t := pc[t]]
      ensures spec.stacks == old(spec.stacks) && spec.place == old(spec.place)
      ensures |cells| == |spec.stacks| == |old(spec.stacks)| && cells[i].top == TopOf(spec.stacks[i])
      ensures cells[i].top == NULL <==> spec.stacks[i] == []
      ensures cells[i].top in mem <==> spec.stacks[i] != []
      ensures op.Pop? && cells[i].top == NULL <==> spec.calls[t] == Status.Done(op, i, NULL)
      ensures !(op.Pop? && cells[i].top == NULL) ==> spec.calls[t] == Pending(op, i)
    {
      TopKnown(t, i);
      hide Valid;
      ReplayOne(spec, Called(t, op, i));
      Invoke(t, op, i);
      CallKnown(t, op, i);
      FirstLoad(t, op, i);
    }

    lemma TopKnown(t: Tid, i: nat)
      requires Valid() && t < |pc| && i < |cells|
      ensures Sized(View()) && |spec.calls| == |pc| && |cells| == |spec.stacks| && cells[i].top == TopOf(spec.stacks[i])
      ensures cells[i].top == NULL <==> spec.stacks[i] == []
      ensures cells[i].top in mem <==> spec.stacks[i] != []
    {
      TopPlaced(View(), spec, i);
    }

    lemma CallKnown(t: Tid, op: Op, i: nat)
      requires Valid() && t < |pc| && pc[t] == Load(op, i)
      ensures Sized(View()) && |spec.calls| == |pc| && i < |cells| == |spec.stacks| && spec.calls[t] == Pending(op, i)
    {
      assert ThreadOk(View(), spec, t);
    }

    method FirstLoad(t: Tid, op: Op, i: nat)
      requires Valid() && t < |pc| == |spec.calls| && pc[t] == Load(op, i) && i < |cells| == |spec.stacks|
      requires spec.calls[t] == Pending(op, i) && (cells[i].top == NULL <==> spec.stacks[i] == [])
      modifies this
      ensures Valid() && AtHead(t, op, i)
      ensures mem == old(mem) && cells == old(cells) && |pc| == old(|pc|) && pc == old(pc)[t := pc[t]]
      ensures spec.stacks == old(spec.stacks) && spec.place == old(spec.place) && |spec.calls| == |pc|
      ensures spec.calls[t] == if op.Pop? && cells[i].top == NULL then Status.Done(op, i, NULL) else Pending(op, i)
    {
      hide Matches, Ends;
      ghost var called := spec;
      ReplayOne(called, Linearize(t));
      LoadCell(t);
      assert spec == if op.Pop? && cells[i].top == NULL then TakeEffect(called, t).value else called;
    }

    /** `Stack::push`. A null block is refused before anything happens. */
    method Push(t: Tid, i: nat, b: Block) returns (threw: bool)
      requires Valid() && t < |pc| && pc[t].Idle? && i < |cells|
      requires b != NULL ==> b in spec.place && spec.place[b] == Held(t)
      modifies this
      ensures Valid() && pc == old(pc) && |cells| == old(|cells|) == |old(spec.stacks)|
      ensures threw == (b == NULL)
      ensures threw ==> View() == old(View()) && spec == old(spec)
      ensures !threw ==>
                && spec.stacks == old(spec.stacks)[i := old(spec.stacks)[i] + [b]]
                && spec.place == old(spec.place)[b := InStack(i, |old(spec.stacks)[i]|)]
    {
      threw := b == NULL;
      TopKnown(t, i);
      hide Valid;
      if !threw {
        Enter(t, Op.Push(b), i);
        PutOnTop(t, i, b);
      }
    }

    /** The rest of a push that has loaded the cell. */
    method PutOnTop(t: Tid, i: nat, b: Block)
      requires Valid() && AtHead(t, Op.Push(b), i) && spec.calls[t] == Pending(Op.Push(b), i) && i < |spec.stacks|
      modifies this
      ensures Valid() && pc == old(pc)[t := Idle] && |cells| == old(|cells|)
      ensures spec.stacks == old(spec.stacks)[i := old(spec.stacks)[i] + [b]]
      ensures spec.place == old(spec.place)[b := InStack(i, |old(spec.stacks)[i]|)]
    {
      hide Matches, Ends;
      ghost var before := spec;
      var _ := RunLambda(t, NULL);
      assert spec == before;
      PushEffect(before, t, i, b);
      assert Events(View(), Action.Store(t, false)) == [Linearize(t), Respond(t, NULL)];
      var stored := Store(t, false);
    }

    /** `Stack::pop`. */
    method Pop(t: Tid, i: nat) returns (top: Word)
      requires Valid() && t < |pc| && pc[t].Idle? && i < |cells|
      modifies this
      ensures Valid() && |pc| == old(|pc|) && pc[t].Idle? && |cells| == old(|cells|) == |old(spec.stacks)| == |spec.stacks|
      ensures top == TopOf(old(spec.stacks)[i])
      ensures top == NULL <==> old(spec.stacks)[i] == []
      ensures top == NULL ==> spec.stacks == old(spec.stacks) && spec.place == old(spec.place)
      ensures top != NULL ==>
                && spec.stacks == old(spec.stacks)[i := old(spec.stacks)[i][..|old(spec.stacks)[i]| - 1]]
                && spec.place == old(spec.place)[top := Held(t)]
    {
      Enter(t, Op.Pop, i);
      top := cells[i].top;
      if top == NULL {
        SeeEmpty(t, i);
      } else {
        TakeTop(t, i);
      }
    }

    /** The rest of a pop that has loaded null. */
    method SeeEmpty(t: Tid, i: nat)
      requires Valid() && AtHead(t, Op.Pop, i) && spec.calls[t] == Status.Done(Op.Pop, i, NULL) && cells[i].top == NULL
      modifies this
      ensures Valid() && |pc| == old(|pc|) && pc[t].Idle? && |cells| == old(|cells|)
      ensures spec.stacks == old(spec.stacks) && spec.place == old(spec.place)
    {
      ReplayOne(spec, Respond(t, NULL));
      var _ := RunLambda(t, NULL);
    }

    /** The rest of a pop that has loaded a top block. */
    method TakeTop(t: Tid, i: nat)
      requires Valid() && AtHead(t, Op.Pop, i) && spec.calls[t] == Pending(Op.Pop, i)
      requires i < |spec.stacks| && spec.stacks[i] != [] && cells[i].top == TopOf(spec.stacks[i]) && cells[i].top in mem
      requires cells[i].top != NULL
      modifies this
      ensures Valid() && |pc| == old(|pc|) && pc[t].Idle? && |cells| == old(|cells|)
      ensures spec.stacks == old(spec.stacks)[i := old(spec.stacks)[i][..|old(spec.stacks)[i]| - 1]]
      ensures spec.place == old(spec.place)[TopOf(old(spec.stacks)[i]) := Held(t)]
    {
      hide Matches, Ends;
      ghost var top, before := cells[i].top, spec;
      var _ := RunLambda(t, mem[cells[i].top]);
      assert spec == before;
      PopEffect(before, t, i);
      ReplayTwo(before, Linearize(t), Respond(t, top));
      assert Events(View(), Action.Store(t, false)) == [Linearize(t), Respond(t, top)];
      var stored := Store(t, false);
    }

    /** The test's last loop: one thread pops every stack until it is empty, and collects. */
    method Drain(t: Tid) returns (popped: seq<Block>)
      requires Valid() && t < |pc| && pc[t].Idle? && |cells| == |spec.stacks|
      modifies this
      ensures Valid()
      ensures spec.stacks == Emptied(old(spec.stacks), |old(spec.stacks)|)
      ensures popped == Drained(old(spec.stacks), |old(spec.stacks)|)
    {
      hide Matches, Ends;
      ghost var all := spec.stacks;
      var i, n := 0, |cells|;
      popped := [];
      while i < n
        invariant Valid() && n == |cells| == |all| && t < |pc| && pc[t].Idle?
        invariant i <= n && spec.stacks == Emptied(all, i)
        invariant popped == Drained(all, i)
      {
        EmptiedNext(all, i);
        var here := DrainOne(t, i);
        popped := popped + here;
        i := i + 1;
      }
    }

    method DrainOne(t: Tid, i: nat) returns (popped: seq<Block>)
      requires Valid() && t < |pc| && pc[t].Idle? && i < |cells| == |spec.stacks|
      modifies this
      ensures Valid() && |cells| == old(|cells|) && t < |pc| && pc[t].Idle?
      ensures spec.stacks == old(spec.stacks)[i := []]
      ensures popped == Reversed(old(spec.stacks)[i])
    {
      hide Matches, Ends;
      ghost var all, rest := spec.stacks, spec.stacks[i];
      popped := [];
      var b := PopNext(t, i, all, rest);
      ReversedMoves([], rest, b);
      rest := Rest(rest);
      while b != NULL
        invariant Valid() && |cells| == |all| == old(|cells|) && t < |pc| && pc[t].Idle?
        invariant spec.stacks == all[i := rest]
        invariant b == NULL ==> rest == []
        invariant Reversed(all[i]) == popped + FirstOf(b) + Reversed(rest)
        decreases |rest|, b != NULL
      {
        popped := popped + [b];
        b := PopNext(t, i, all, rest);
        ReversedMoves(popped, rest, b);
        rest := Rest(rest);
      }
    }

    /** `pop`, when stack i is known to hold `rest` and the others what they hold in `all`. */
    method PopNext(t: Tid, i: nat, ghost all: seq<seq<Block>>, ghost rest: seq<Block>) returns (b: Word)
      requires Valid() && t < |pc| && pc[t].Idle? && i < |cells| == |all| && spec.stacks == all[i := rest]
      modifies this
      ensures Valid() && |cells| == old(|cells|) && t < |pc| && pc[t].Idle?
      ensures b == TopOf(rest) && (b == NULL <==> rest == [])
      ensures spec.stacks == all[i := Rest(rest)]
    {
      b := Pop(t, i);
      assert all[i := rest][i := Rest(rest)] == all[i := Rest(rest)];
    }
  }

  // ----- logs

  /** The stacks, concrete and abstract. */
  datatype Joint = Joint(s: State, p: Spec)

  type StackLog = CallLog<Joint, Action>

  function Next(x: Joint, a: Action): Joint
    requires Enabled(x.s, a)
  {
    Joint(Apply(x.s, a), match Replay(x.p, Events(x.s, a)) case Some(q) => q case None => x.p)
  }

  /** The steps of the threads other than `t`: whatever they are allowed to do. */
  function Others(t: Tid): Step<Joint, Action> {
    (x: Joint, a: Action) => if Allowed(x.s, x.p, a) && a.t != t then Some(Next(x, a)) else None
  }

  /** The steps of thread `t` itself. */
  function Mine(t: Tid): Step<Joint, Action> {
    (x: Joint, a: Action) => if Allowed(x.s, x.p, a) && a.t == t then Some(Next(x, a)) else None
  }

  lemma OthersDo(x: Joint, a: Action, t: Tid)
    ensures Others(t)(x, a) == if Allowed(x.s, x.p, a) && a.t != t then Some(Next(x, a)) else None
  {
  }

  /** One step of another thread. */
  lemma OthersAct(s: State, before: Life, a: Action, after: Life, t: Tid, n: nat)
    requires OthersMoved(s, before.s, t, n) && Stepped(before, a, after) && a.t != t
    ensures OthersMoved(s, after.s, t, n + 1)
    ensures Next(Joint(before.s, before.p), a) == Joint(after.s, after.p) && after.history == before.history + [a]
  {
    OthersMove(s, before.s, t, n, a);
  }

  /** The marks of the conditional stores among the own actions of a call, in order. */
  function StoreMarks(own: seq<Action>): seq<bool>
    decreases |own|
  {
    if own == [] then []
    else
      var last := own[|own| - 1];
      StoreMarks(own[..|own| - 1]) + if last.Store? then [last.spurious] else []
  }

  /** More of the same call. */
  predicate MoreOf(own: seq<Action>, more: seq<Action>) {
    own <= more && forall k :: |own| <= k < |more| ==> !ByClient(more[k])
  }

  /** The own actions of one call. */
  predicate IsOneCall(own: seq<Action>, t: Tid, op: Op, i: nat) {
    MoreOf([Action.Invoke(t, op, i)], own)
  }

  lemma Acted(c: StackLog, t: Tid, x: Joint, h: seq<Action>, a: Action)
    requires IsLog(Mine(t), Others(t), c, x, h) && Allowed(x.s, x.p, a) && a.t == t
    ensures IsLog(Mine(t), Others(t), Grown(c, Own(a)), Next(x, a), h + [a])
    ensures forall env, n: nat :: UpTo(c, env, n) ==> UpTo(Grown(c, Own(a)), env, n)
    ensures Owns(Grown(c, Own(a)).done) == Owns(c.done) + [a]
    ensures StoreMarks(Owns(c.done) + [a]) == StoreMarks(Owns(c.done)) + if a.Store? then [a.spurious] else []
    ensures !ByClient(a) ==> MoreOf(Owns(c.done), Owns(c.done) + [a])
  {
    LogAct(Mine(t), Others(t), c, x, h, a);
    assert (Owns(c.done) + [a])[..|Owns(c.done)|] == Owns(c.done);
  }

  /** Whether attempt number `k` is to fail for no reason; a swap never does. */
  predicate MarkOf(platform: Platform, spurious: seq<bool>, k: nat) {
    platform.LlSc? && k < |spurious| && spurious[k]
  }

  /** Every attempt that came to its store had the next mark; the store of the last one, if it
      succeeded, was not marked. */
  predicate FollowsMarks(platform: Platform, marks: seq<bool>, spurious: seq<bool>, attempts: nat, o: Outcome) {
    && |marks| <= attempts <= |marks| + 1
    && (o == Again ==> |marks| == attempts)
    && (forall k :: 0 <= k < |marks| ==> marks[k] == MarkOf(platform, spurious, k))
    && (o == Returned && attempts > 0 && |marks| == attempts ==> !marks[attempts - 1])
  }

  lemma MarksBegin(platform: Platform, spurious: seq<bool>)
    ensures FollowsMarks(platform, [], spurious, 0, Again)
  {
  }

  lemma MarksGoOn(platform: Platform, marks: seq<bool>, spurious: seq<bool>, attempts: nat, o: Outcome, used: nat, mark: bool)
    requires FollowsMarks(platform, marks, spurious, attempts, Again) && mark == MarkOf(platform, spurious, attempts)
    requires used <= 1 && (o != Returned ==> used == 1) && (used == 1 && mark ==> o == Again)
    ensures FollowsMarks(platform, marks + if used == 1 && o != Overtaken then [mark] else [], spurious, attempts + 1, o)
  {
  }

  lemma MoreBegins(own: seq<Action>)
    ensures MoreOf(own, own)
  {
  }

  lemma MoreMore(a: seq<Action>, b: seq<Action>, c: seq<Action>)
    requires MoreOf(a, b) && MoreOf(b, c)
    ensures MoreOf(a, c)
  {
  }

  /** With compare-and-swap, fewer actions of others in an attempt than the counter has values;
      with load-linked/store-conditional, any number. */
  ghost predicate WithinTurn(platform: Platform, env: seq<seq<Action>>) {
    platform.Dwcas? ==> forall k: nat {:trigger Batch(env, k)} :: |Batch(env, k)| + |Batch(env, k + 1)| < Range(platform)
  }

  /** It is enough that every batch is shorter than half a turn; the store-conditional form needs
      nothing. */
  lemma ShortBatches(platform: Platform, env: seq<seq<Action>>, m: nat)
    requires platform.Dwcas? ==> 2 * m < Range(platform) && forall k :: 0 <= k < |env| ==> |env[k]| <= m
    ensures WithinTurn(platform, env)
  {
  }

  lemma TurnHolds(platform: Platform, env: seq<seq<Action>>, k: nat)
    requires WithinTurn(platform, env) && platform.Dwcas?
    ensures |Batch(env, k)| + |Batch(env, k + 1)| < Range(platform)
  {
  }

  /** Every index of a thread's call is in range. */
  lemma CallsSized(s: State, p: Spec, t: Tid)
    requires Matches(s, p) && t < |s.pc|
    ensures Sized(s) && |p.calls| == |s.pc| && OnStack(s.pc[t], |s.cells|)
    ensures forall b :: b in p.place <==> b in s.mem
  {
    assert ThreadOk(s, p, t);
  }

  predicate SameTry(ready: Pc, commit: Pc)
    requires ready.Ready? && commit.Commit?
  {
    commit.op == ready.op && commit.i == ready.i && commit.cache == ready.cache && commit.ver == ready.ver
  }

  /** What at most `n` actions of other threads leave to thread `t`. */
  ghost predicate OthersMoved(s: State, s': State, t: Tid, n: nat) {
    && Sized(s) && Sized(s') && |s'.cells| == |s.cells| && s'.platform == s.platform
    && t < |s.pc| == |s'.pc| && s'.pc[t] == s.pc[t]
    && (forall i :: 0 <= i < |s.cells| ==> s.versions[i] <= s'.versions[i] <= s.versions[i] + n)
  }

  lemma OthersRest(s: State, t: Tid)
    requires Sized(s) && t < |s.pc|
    ensures OthersMoved(s, s, t, 0)
  {
  }

  lemma OthersWait(s: State, m: State, t: Tid, n: nat)
    requires OthersMoved(s, m, t, n)
    ensures OthersMoved(s, m, t, n + 1)
  {
  }

  lemma OthersSized(s: State, m: State, t: Tid, n: nat)
    requires OthersMoved(s, m, t, n)
    ensures Sized(m) && t < |m.pc|
  {
  }

  lemma OthersMove(s: State, m: State, t: Tid, n: nat, a: Action)
    requires OthersMoved(s, m, t, n) && Enabled(m, a) && a.t != t
    ensures OthersMoved(s, Apply(m, a), t, n + 1)
  {
  }

  /** A pop whose stack was not modified since its cache was filled finds its cached top in memory. */
  lemma ReadPossible(s: State, p: Spec, t: Tid)
    requires Matches(s, p) && t < |s.pc| && s.pc[t].Ready?
    ensures Sized(s) && s.pc[t].i < |s.cells|
    ensures var pc := s.pc[t];
            pc.op.Pop? && pc.cache.top != NULL && pc.ver == s.versions[pc.i] ==> pc.cache.top in s.mem
  {
    assert ThreadOk(s, p, t);
    TopPlaced(s, p, s.pc[t].i);
  }

  /** The stacks when the first n have been emptied. */
  function Emptied(stacks: seq<seq<Block>>, n: nat): (r: seq<seq<Block>>)
    ensures |r| == |stacks|
    ensures forall j :: 0 <= j < |r| ==> r[j] == if j < n then [] else stacks[j]
  {
    seq(|stacks|, j requires 0 <= j < |stacks| => if j < n then [] else stacks[j])
  }

  lemma EmptiedNext(stacks: seq<seq<Block>>, n: nat)
    requires n < |stacks|
    ensures Emptied(stacks, n)[n := []] == Emptied(stacks, n + 1) && Emptied(stacks, n)[n] == stacks[n]
  {
  }

  /** A stack without its top. */
  function Rest(stack: seq<Block>): seq<Block> {
    if stack == [] then [] else stack[..|stack| - 1]
  }

  function FirstOf(b: Word): seq<Block> {
    if b == NULL then [] else [b]
  }

  /** A stack in the order in which it is popped. */
  function Reversed(stack: seq<Block>): seq<Block> {
    if stack == [] then [] else [stack[|stack| - 1]] + Reversed(stack[..|stack| - 1])
  }

  lemma ReversedMoves(popped: seq<Block>, stack: seq<Block>, b: Word)
    requires b == TopOf(stack) && (b == NULL <==> stack == [])
    ensures popped + Reversed(stack)
            == popped + FirstOf(b) + Reversed(Rest(stack))
  {
    if stack != [] {
      assert popped + ([b] + Reversed(stack[..|stack| - 1])) == popped + [b] + Reversed(stack[..|stack| - 1]);
    }
  }

  /** The first n stacks, popped empty one after another. */
  function Drained(stacks: seq<seq<Block>>, n: nat): seq<Block>
    requires n <= |stacks|
  {
    if n == 0 then [] else Drained(stacks, n - 1) + Reversed(stacks[n - 1])
  }
}
