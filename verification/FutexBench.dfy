// The futex test as a whole: as many mutexes and counters as there are workers, and every worker
// goes round all of them, one round of `FutexCounter` at each.

module FutexBench {
  import opened Common
  import opened FutexModel
  import opened FutexCounter

  /** `access` is the `thread_access` of every worker: the index of the mutex it is at. */
  datatype Bench = Bench(clients: seq<Client>, access: seq<nat>)

  /** Something happens at mutex number `j`. */
  datatype BAction = At(j: nat, a: CAction)

  function InitBench(mutexes: nat, workers: nat, modulus: nat): Bench {
    Bench(seq(mutexes, _ => InitClient(workers, modulus)), seq(workers, _ => 0))
  }

  function ThreadOf(a: CAction): Tid {
    if a.Word? then a.a.t else a.t
  }

  /** A worker acts, and sleeps, only at the mutex it has come to. */
  predicate BEnabled(w: Bench, b: BAction) {
    && b.j < |w.clients|
    && CEnabled(w.clients[b.j], b.a)
    && ThreadOf(b.a) < |w.access|
    && w.access[ThreadOf(b.a)] == b.j
  }

  function BApply(w: Bench, b: BAction): Bench
    requires BEnabled(w, b)
  {
    Bench(w.clients[b.j := CApply(w.clients[b.j], b.a)],
          if b.a.AddAtomic? then w.access[b.a.t := (b.j + 1) % |w.clients|] else w.access)
  }

  predicate BRuns(w: Bench, acts: seq<BAction>)
    decreases |acts|
  {
    acts == [] || (BEnabled(w, acts[0]) && BRuns(BApply(w, acts[0]), acts[1..]))
  }

  function BAfter(w: Bench, acts: seq<BAction>): Bench
    requires BRuns(w, acts)
    decreases |acts|
  {
    if acts == [] then w else BAfter(BApply(w, acts[0]), acts[1..])
  }

  /** What happens at mutex number `j`. */
  function AtMutex(acts: seq<BAction>, j: nat): seq<CAction>
    decreases |acts|
  {
    if acts == [] then []
    else (if acts[0].j == j then [acts[0].a] else []) + AtMutex(acts[1..], j)
  }

  /** Seen from one mutex, a run of the test is a run at that mutex. */
  lemma {:induction false} RunAtMutex(w: Bench, acts: seq<BAction>, j: nat)
    requires BRuns(w, acts) && j < |w.clients|
    ensures |BAfter(w, acts).clients| == |w.clients|
    ensures CRuns(w.clients[j], AtMutex(acts, j))
    ensures CAfter(w.clients[j], AtMutex(acts, j)) == BAfter(w, acts).clients[j]
    decreases |acts|
  {
    if acts == [] {
    } else {
      RunAtMutex(BApply(w, acts[0]), acts[1..], j);
      if acts[0].j == j {
        assert AtMutex(acts, j)[1..] == AtMutex(acts[1..], j);
      } else {
        assert AtMutex(acts, j) == AtMutex(acts[1..], j);
      }
    }
  }

  /** At every mutex: while no worker is inside, its plain counter is the number of critical
      sections completed there, modulo the counter's range; once no worker is in a round there,
      it equals the atomic counter. The test compares the two when all workers have been joined. */
  lemma EveryCounterIsExact(mutexes: nat, workers: nat, modulus: nat, acts: seq<BAction>, j: nat)
    requires modulus > 0 && j < mutexes && BRuns(InitBench(mutexes, workers, modulus), acts)
    ensures var n := BAfter(InitBench(mutexes, workers, modulus), acts);
            && |n.clients| == mutexes
            && var c := n.clients[j];
               && ((forall t :: 0 <= t < |c.futex.pc| ==> !c.futex.pc[t].Owner?) ==>
                     c.plain == Unlocks(AtMutex(acts, j)) % modulus)
               && ((forall t :: 0 <= t < |c.phase| ==> c.phase[t] == Fresh) ==> c.plain == c.atomic)
  {
    RunAtMutex(InitBench(mutexes, workers, modulus), acts, j);
    PlainCounterIsExact(workers, modulus, AtMutex(acts, j));
  }

  /** At the mutex it has come to a worker can do whatever its round allows, and nothing elsewhere. */
  lemma OnlyThere(w: Bench, t: Tid, j: nat, a: CAction)
    requires t < |w.access| && ThreadOf(a) == t && j < |w.clients|
    ensures BEnabled(w, At(j, a)) <==> CEnabled(w.clients[j], a) && w.access[t] == j
  {
  }

  // ----- the round of a worker

  /** How often worker `t` has completed a round: it ends with the atomic increment. */
  function RoundsOf(acts: seq<BAction>, t: Tid): nat {
    Count((b: BAction) => b.a == AddAtomic(t), acts)
  }

  /** Every worker goes round all mutexes in turn: after r rounds it is at mutex r modulo their
      number, and nowhere else does it act. */
  lemma {:induction false} WorkersGoRound(w: Bench, acts: seq<BAction>, t: Tid, sofar: nat)
    requires BRuns(w, acts) && t < |w.access| && |w.clients| > 0 && w.access[t] == sofar % |w.clients|
    ensures var n := BAfter(w, acts);
            && |n.clients| == |w.clients| && |n.access| == |w.access|
            && n.access[t] == (sofar + RoundsOf(acts, t)) % |w.clients|
    decreases |acts|
  {
    if acts == [] {
    } else {
      var next := BApply(w, acts[0]);
      ModSuccessor(sofar, |w.clients|);
      if acts[0].a == AddAtomic(t) {
        WorkersGoRound(next, acts[1..], t, sofar + 1);
      } else {
        WorkersGoRound(next, acts[1..], t, sofar);
      }
    }
  }
}
