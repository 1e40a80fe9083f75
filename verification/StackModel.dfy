// The intrusive lock-free stack over `ABA_Wrapper::modify`, as a step system over a shared
// memory, any number of stacks and any number of threads.

module StackModel {
  import opened Common
  import opened Platforms

  /** The address of a block, and the word stored at it; 0 is the null pointer. */
  type Block = nat
  type Word = nat

  const NULL: Word := 0

  datatype Op = Push(b: Block) | Pop

  datatype Cell = Cell(top: Word, counter: nat)

  /** `ver` remembers how many modifications stack `i` had seen when the cache was filled; the
      code does not have it, the bound on wrap-around is stated with it. */
  datatype Pc =
    | Idle
    | Load(op: Op, i: nat)                                                  // the cell is to be loaded
    | Ready(op: Op, i: nat, cache: Cell, ver: nat)                          // the lambda is to be called
    | Commit(op: Op, i: nat, cache: Cell, ver: nat, desired: Word)          // the conditional store is next

  /** `mem` maps every block to its first word; `versions` counts successful modifications. */
  datatype State = State(platform: Platform, mem: map<Block, Word>, cells: seq<Cell>, versions: seq<nat>,
                         monitors: seq<set<Tid>>, pc: seq<Pc>)

  datatype Action =
    | Invoke(t: Tid, op: Op, i: nat)
    | LoadCell(t: Tid)
    | RunLambda(t: Tid, w: Word)             // a pop reads the word `w` from its cached top
    | Store(t: Tid, spurious: bool)
    | Scribble(t: Tid, b: Block, w: Word)    // the client writes into a block it holds
    | Give(t: Tid, u: Tid, b: Block)         // the client hands a block to another thread

  /** The client's own actions, between its calls. */
  predicate ByClient(a: Action) {
    a.Invoke? || a.Scribble? || a.Give?
  }

  /** New stacks are empty, with counter 1. */
  function Init(platform: Platform, mem: map<Block, Word>, stacks: nat, n: nat): State {
    State(platform, mem, seq(stacks, _ => Cell(NULL, CounterAt(platform, 0))), seq(stacks, _ => 0),
          seq(stacks, _ => {}), seq(n, _ => Idle))
  }

  predicate Sized(s: State) {
    |s.versions| == |s.cells| == |s.monitors|
  }

  predicate OnStack(pc: Pc, stacks: nat) {
    pc.Idle? || pc.i < stacks
  }

  /** The read of a pop is exact while its stack has not been modified since the cache was
      filled. Once it has, the block may be anybody's, and the read may return any word. */
  predicate ReadAllowed(s: State, pc: Pc, w: Word)
    requires Sized(s) && pc.Ready? && pc.i < |s.cells|
  {
    pc.op.Pop? && pc.cache.top != NULL && pc.ver == s.versions[pc.i] ==>
      pc.cache.top in s.mem && s.mem[pc.cache.top] == w
  }

  predicate Enabled(s: State, a: Action) {
    && Sized(s)
    && a.t < |s.pc|
    && OnStack(s.pc[a.t], |s.cells|)
    && match a
       case Invoke(t, op, i) => s.pc[t].Idle? && i < |s.cells|
       case LoadCell(t) => s.pc[t].Load?
       case RunLambda(t, w) => s.pc[t].Ready? && ReadAllowed(s, s.pc[t], w)
       case Store(t, spurious) => s.pc[t].Commit? && (s.platform.Dwcas? ==> !spurious)
       case Scribble(t, b, _) => s.pc[t].Idle? && b in s.mem
       case Give(t, u, b) => s.pc[t].Idle? && u < |s.pc| && b in s.mem
  }

  /** Whether the conditional store of thread `t` is going to succeed. */
  predicate Succeeds(s: State, a: Action)
    requires Enabled(s, a) && a.Store?
  {
    var pc := s.pc[a.t];
    if s.platform.Dwcas? then pc.cache == s.cells[pc.i]
    else a.t in s.monitors[pc.i] && !a.spurious
  }

  function Moved(s: State, t: Tid, pc: Pc): State
    requires t < |s.pc|
  {
    s.(pc := s.pc[t := pc])
  }

  /** `atomic_dw_load`, or `atomic_exclusive_load_aquire`; also the reload of a failed swap. */
  function Loaded(s: State, t: Tid, op: Op, i: nat): State
    requires Sized(s) && t < |s.pc| && i < |s.cells|
  {
    var linked := if s.platform.LlSc? then s.monitors[i := s.monitors[i] + {t}] else s.monitors;
    Moved(s, t, Ready(op, i, s.cells[i], s.versions[i])).(monitors := linked)
  }

  /** A successful store: the word and its counter change, and every monitor on it is cleared. */
  function Stored(s: State, t: Tid, i: nat, cell: Cell): State
    requires Sized(s) && t < |s.pc| && i < |s.cells|
  {
    Moved(s, t, Idle).(cells := s.cells[i := cell], versions := s.versions[i := s.versions[i] + 1],
                       monitors := s.monitors[i := {}])
  }

  /** The pair a successful store writes: the desired word, and the cached counter plus one. */
  function NewCell(s: State, t: Tid): Cell
    requires t < |s.pc| && s.pc[t].Commit?
  {
    Cell(s.pc[t].desired, Increment(s.pc[t].cache.counter, Range(s.platform)))
  }

  function Apply(s: State, a: Action): State
    requires Enabled(s, a)
  {
    var pc := s.pc[a.t];
    match a
    case Invoke(t, op, i) =>
      if op == Push(NULL) then s      // std::invalid_argument is thrown before anything else
      else Moved(s, t, Load(op, i))
    case LoadCell(t) => Loaded(s, t, pc.op, pc.i)
    case RunLambda(t, w) =>
      (match pc.op
       case Push(b) =>
         Moved(s, t, Commit(pc.op, pc.i, pc.cache, pc.ver, b)).(mem := s.mem[b := pc.cache.top])
       case Pop =>
         if pc.cache.top == NULL then Moved(s, t, Idle).(monitors := s.monitors[pc.i := s.monitors[pc.i] - {t}])
         else Moved(s, t, Commit(pc.op, pc.i, pc.cache, pc.ver, w)))
    case Store(t, _) =>
      if Succeeds(s, a) then Stored(s, t, pc.i, NewCell(s, t))
      else if s.platform.Dwcas? then Loaded(s, t, pc.op, pc.i)
      else Moved(s, t, Load(pc.op, pc.i)).(monitors := s.monitors[pc.i := s.monitors[pc.i] - {t}])
    case Scribble(_, b, w) => s.(mem := s.mem[b := w])
    case Give(_, _, _) => s
  }

  predicate Runs(s: State, acts: seq<Action>)
    decreases |acts|
  {
    acts == [] || (Enabled(s, acts[0]) && Runs(Apply(s, acts[0]), acts[1..]))
  }

  function After(s: State, acts: seq<Action>): State
    requires Runs(s, acts)
    decreases |acts|
  {
    if acts == [] then s else After(Apply(s, acts[0]), acts[1..])
  }

  /** The assumption on wrap-around: when the compare-and-swap of a pop succeeds, its stack has
      been modified less often than the counter has values since the pop's cache was filled. */
  predicate WithinBound(s: State, a: Action) {
    Enabled(s, a) && a.Store? && s.platform.Dwcas? && s.pc[a.t].op.Pop? && Succeeds(s, a) ==>
      s.versions[s.pc[a.t].i] < s.pc[a.t].ver + Range(s.platform)
  }

  // ----- laws of single steps

  /** A conditional store succeeds exactly if the pair is the cached one, or if the monitor is still
      set and nothing goes wrong; it then writes the desired word and the next counter, and clears
      every monitor. A failure writes nothing: the swap refills the cache with the pair of the
      moment, the store-conditional goes back to the load. */
  lemma StoreLaw(s: State, t: Tid, spurious: bool)
    requires Enabled(s, Store(t, spurious))
    ensures var me, n := s.pc[t], Apply(s, Store(t, spurious));
            var i := me.i;
            var stored := if s.platform.Dwcas? then me.cache == s.cells[i] else t in s.monitors[i] && !spurious;
            && n.mem == s.mem && n.platform == s.platform
            && (stored <==> n.pc[t].Idle?)
            && n.versions == (if stored then s.versions[i := s.versions[i] + 1] else s.versions)
            && n.cells == (if stored then s.cells[i := Cell(me.desired, Increment(me.cache.counter, Range(s.platform)))] else s.cells)
            && n.monitors == (if stored then s.monitors[i := {}]
                              else if s.platform.Dwcas? then s.monitors else s.monitors[i := s.monitors[i] - {t}])
            && n.pc == s.pc[t := if stored then Idle
                                 else if s.platform.Dwcas? then Ready(me.op, i, s.cells[i], s.versions[i])
                                 else Load(me.op, i)]
  {
  }

  /** A store-conditional that fails for no reason stores nothing, whatever its monitor says. */
  lemma SpuriousFails(s: State, t: Tid)
    requires Enabled(s, Store(t, true))
    ensures var n := Apply(s, Store(t, true));
            && s.platform.LlSc?
            && n.cells == s.cells && n.mem == s.mem && n.versions == s.versions
            && n.pc[t] == Load(s.pc[t].op, s.pc[t].i)
  {
  }

  /** Once its stack has been modified a pop may read any word; before that, only the one there. */
  lemma ReadsOf(s: State, t: Tid, w: Word)
    requires Sized(s) && t < |s.pc| && OnStack(s.pc[t], |s.cells|)
    requires s.pc[t].Ready? && s.pc[t].op.Pop? && s.pc[t].cache.top != NULL
    ensures var me := s.pc[t];
            Enabled(s, RunLambda(t, w)) <==>
              me.ver != s.versions[me.i] || (me.cache.top in s.mem && s.mem[me.cache.top] == w)
  {
  }
}
