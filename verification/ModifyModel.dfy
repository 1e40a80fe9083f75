// `ABA_Wrapper::modify` with a pure modifier, as a step system: on double-word
// compare-and-swap with a change counter, and on load-linked/store-conditional.

module ModifyModel {
  import opened Common
  import opened Platforms

  /** Returns the new value, or refuses. */
  type Modifier<!T> = T -> Option<T>

  datatype Pc<!T> =
    | Idle
    | Load(f: Modifier<T>)                                              // the cell is to be loaded
    | Ready(f: Modifier<T>, data: T, counter: nat)                      // loaded, f is to be called
    | Commit(f: Modifier<T>, data: T, counter: nat, desired: T)         // f has answered, store is next

  datatype State<!T> = State(platform: Platform, data: T, counter: nat, monitors: set<Tid>, pc: seq<Pc<T>>)

  /** A store-conditional may fail for no reason (`spurious`); a compare-and-swap may not. */
  datatype Action<!T> =
    | Call(t: Tid, f: Modifier<T>)
    | LoadCell(t: Tid)
    | RunModifier(t: Tid)
    | Store(t: Tid, spurious: bool)

  /** A new wrapper: the counter starts at 1. */
  function Init<T>(platform: Platform, init: T, n: nat): State<T> {
    State(platform, init, CounterAt(platform, 0), {}, seq(n, _ => Idle))
  }

  predicate Enabled<T>(s: State<T>, a: Action<T>) {
    && a.t < |s.pc|
    && match a
       case Call(t, _) => s.pc[t].Idle?
       case LoadCell(t) => s.pc[t].Load?
       case RunModifier(t) => s.pc[t].Ready?
       case Store(t, spurious) => s.pc[t].Commit? && (s.platform.Dwcas? ==> !spurious)
  }

  /** Whether the conditional store of thread `t` is going to succeed. */
  predicate Succeeds<T(==)>(s: State<T>, a: Action<T>)
    requires Enabled(s, a) && a.Store?
  {
    var pc := s.pc[a.t];
    if s.platform.Dwcas? then pc.data == s.data && pc.counter == s.counter
    else a.t in s.monitors && !a.spurious
  }

  function Moved<T>(s: State<T>, t: Tid, pc: Pc<T>): State<T>
    requires t < |s.pc|
  {
    s.(pc := s.pc[t := pc])
  }

  function Apply<T(==)>(s: State<T>, a: Action<T>): State<T>
    requires Enabled(s, a)
  {
    var pc := s.pc[a.t];
    var linked := if s.platform.LlSc? then s.monitors + {a.t} else s.monitors;
    match a
    case Call(t, f) => Moved(s, t, Load(f))
    case LoadCell(t) => Moved(s, t, Ready(pc.f, s.data, s.counter)).(monitors := linked)
    case RunModifier(t) =>
      (match pc.f(pc.data)
       case None => Moved(s, t, Idle).(monitors := s.monitors - {t})
       case Some(desired) => Moved(s, t, Commit(pc.f, pc.data, pc.counter, desired)))
    case Store(t, _) =>
      if Succeeds(s, a) then
        Moved(s, t, Idle).(data := pc.desired, counter := Increment(pc.counter, Range(s.platform)), monitors := {})
      else if s.platform.Dwcas? then
        Moved(s, t, Ready(pc.f, s.data, s.counter))    // a failed swap has reloaded the cache
      else
        Moved(s, t, Load(pc.f)).(monitors := s.monitors - {t})
  }

  predicate Runs<T(==)>(s: State<T>, acts: seq<Action<T>>)
    decreases |acts|
  {
    acts == [] || (Enabled(s, acts[0]) && Runs(Apply(s, acts[0]), acts[1..]))
  }

  function After<T(==)>(s: State<T>, acts: seq<Action<T>>): State<T>
    requires Runs(s, acts)
    decreases |acts|
  {
    if acts == [] then s else After(Apply(s, acts[0]), acts[1..])
  }

  lemma {:induction false} RunsConcat<T>(s: State<T>, xs: seq<Action<T>>, ys: seq<Action<T>>)
    requires Runs(s, xs) && Runs(After(s, xs), ys)
    ensures Runs(s, xs + ys) && After(s, xs + ys) == After(After(s, xs), ys)
    decreases |xs|
  {
    if xs == [] {
      assert xs + ys == ys;
    } else {
      assert (xs + ys)[1..] == xs[1..] + ys;
      RunsConcat(Apply(s, xs[0]), xs[1..], ys);
    }
  }

  /** A store-conditional that fails for no reason writes nothing, whatever its monitor says, and
      sends its thread back to the load. */
  lemma SpuriousFails<T>(s: State<T>, t: Tid)
    requires Enabled(s, Store(t, true))
    ensures var n := Apply(s, Store(t, true));
            && s.platform.LlSc?
            && n.data == s.data && n.counter == s.counter
            && n.pc[t] == Load(s.pc[t].f) && t !in n.monitors
  {
  }
}
