// What a thread sees, defined from the history of accesses as the C++ memory model defines it
// (release sequences, synchronizes-with), and the proof that `FutexHandover` computes just that.

module FutexVisibility {
  import opened Common
  import opened FutexModel
  import opened FutexSafety
  import opened FutexHandover

  /** One access: a write of data inside the lock, or a write of the futex word. A failed
      compare_exchange is relaxed and writes nothing. */
  datatype Access =
    | Nothing
    | Data(t: Tid)
    | Write(t: Tid, rmw: bool, acquires: bool, releases: bool)

  /** The memory orders of the code. */
  function AccessOf(s: State, a: MAction): Access
    requires a.Word? ==> Enabled(s, a.a)
  {
    match a
    case WriteData(t) => Data(t)
    case Word(b) =>
      match b
      case CompareExchange(t) => if s.value == 0 then Write(t, true, true, false) else Nothing
      case Exchange(t) => Write(t, true, true, false)
      case FetchSub(t) => Write(t, true, false, true)
      case StoreUnlocked(t) => Write(t, false, false, false)
      case _ => Nothing
  }

  function History(m: Memory, acts: seq<MAction>, rule: Rule): seq<Access>
    requires MRuns(m, acts, rule)
    decreases |acts|
  {
    if acts == [] then [] else [AccessOf(m.futex, acts[0])] + History(MApply(m, acts[0], rule), acts[1..], rule)
  }

  /** The holder can write data at any time, and nobody else can. */
  lemma HolderWrites(m: Memory, t: Tid)
    requires |m.seen| == |m.futex.pc| && t < |m.seen|
    ensures MEnabled(m, WriteData(t)) <==> m.futex.pc[t] == Owner
    ensures forall b :: MEnabled(m, Word(b)) <==> Enabled(m.futex, b)
  {
  }

  /** How many data writes there were. */
  function DataCount(h: seq<Access>): nat {
    if h == [] then 0 else DataCount(h[..|h| - 1]) + if h[|h| - 1].Data? then 1 else 0
  }

  predicate IsHead(h: seq<Access>, i: nat)
    requires i < |h|
  {
    h[i].Write? && h[i].releases
  }

  /** The last write in `h` is in the release sequence headed by `h[i]`: all writes after the head
      are read-modify-writes, or, in C++17 only, by the head's own thread. */
  ghost predicate Continues(h: seq<Access>, i: nat, rule: Rule)
    requires i < |h| && IsHead(h, i)
  {
    forall k :: i < k < |h| && h[k].Write? ==> h[k].rmw || (rule == Cpp17 && h[k].t == h[i].t)
  }

  /** Data write number `k` happens before what thread `t` does after `h`: it is its own, or it
      happens before a release whose sequence an acquiring read of `t` has read from. */
  ghost predicate Sees(h: seq<Access>, t: Tid, k: nat, rule: Rule)
    decreases |h|
  {
    h != [] &&
    var init, last := h[..|h| - 1], h[|h| - 1];
    || Sees(init, t, k, rule)
    || (last == Data(t) && k == DataCount(init))
    || (last.Write? && last.t == t && last.acquires && Carries(init, k, rule))
  }

  /** Who reads the word by an acquiring read now, sees data write `k`. */
  ghost predicate Carries(h: seq<Access>, k: nat, rule: Rule)
    decreases |h|
  {
    exists i :: 0 <= i < |h| && IsHead(h, i) && Continues(h, i, rule) && Sees(h[..i], h[i].t, k, rule)
  }

  /** The same, for the heads of one thread. */
  ghost predicate CarriesOf(h: seq<Access>, t: Tid, k: nat, rule: Rule) {
    exists i :: 0 <= i < |h| && IsHead(h, i) && h[i].t == t && Continues(h, i, rule) && Sees(h[..i], t, k, rule)
  }

  lemma CarriesOfSome(h: seq<Access>, k: nat, rule: Rule)
    ensures Carries(h, k, rule) <==> exists t: Tid :: CarriesOf(h, t, k, rule)
  {
    if Carries(h, k, rule) {
      var i :| 0 <= i < |h| && IsHead(h, i) && Continues(h, i, rule) && Sees(h[..i], h[i].t, k, rule);
      assert CarriesOf(h, h[i].t, k, rule);
    }
    if t: Tid :| CarriesOf(h, t, k, rule) {
      var i :| 0 <= i < |h| && IsHead(h, i) && h[i].t == t && Continues(h, i, rule) && Sees(h[..i], t, k, rule);
      assert Sees(h[..i], h[i].t, k, rule);
    }
  }

  /** What a thread has seen it sees. */
  lemma {:induction false} SeesMore(h: seq<Access>, i: nat, t: Tid, k: nat, rule: Rule)
    requires i <= |h| && Sees(h[..i], t, k, rule)
    ensures Sees(h, t, k, rule)
    decreases |h|
  {
    if i == |h| {
      assert h[..i] == h;
    } else {
      assert h[..|h| - 1][..i] == h[..i];
      SeesMore(h[..|h| - 1], i, t, k, rule);
    }
  }

  /** One more access changes what the heads of thread `t` carry like this. */
  lemma CarriesNext(h: seq<Access>, x: Access, t: Tid, k: nat, rule: Rule)
    ensures CarriesOf(h + [x], t, k, rule)
            <==> || (CarriesOf(h, t, k, rule) && (x.Write? ==> x.rmw || (rule == Cpp17 && x.t == t)))
                 || (x.Write? && x.releases && x.t == t && Sees(h, t, k, rule))
  {
    var g := h + [x];
    assert g[..|h|] == h;
    if CarriesOf(g, t, k, rule) {
      var i :| 0 <= i < |g| && IsHead(g, i) && g[i].t == t && Continues(g, i, rule) && Sees(g[..i], t, k, rule);
      if i < |h| {
        assert g[..i] == h[..i] && g[i] == h[i] && g[|h|] == x;
        assert forall j :: i < j < |h| ==> g[j] == h[j];
        assert IsHead(h, i) && Continues(h, i, rule);
      }
    }
    if CarriesOf(h, t, k, rule) && (x.Write? ==> x.rmw || (rule == Cpp17 && x.t == t)) {
      var i :| 0 <= i < |h| && IsHead(h, i) && h[i].t == t && Continues(h, i, rule) && Sees(h[..i], t, k, rule);
      assert g[..i] == h[..i] && g[i] == h[i];
      assert IsHead(g, i) && Continues(g, i, rule);
    }
    if x.Write? && x.releases && x.t == t && Sees(h, t, k, rule) {
      assert IsHead(g, |h|) && Continues(g, |h|, rule) && g[..|h|] == h;
    }
  }

  lemma SeesNext(h: seq<Access>, x: Access, t: Tid, k: nat, rule: Rule)
    ensures Sees(h + [x], t, k, rule)
            <==> || Sees(h, t, k, rule)
                 || (x == Data(t) && k == DataCount(h))
                 || (x.Write? && x.t == t && x.acquires && Carries(h, k, rule))
  {
    assert (h + [x])[..|h|] == h;
  }

  /** The memory of the model is what the history says. */
  ghost predicate Agrees(m: Memory, h: seq<Access>, rule: Rule) {
    && |m.seen| == |m.futex.pc|
    && m.written == DataCount(h)
    && (forall t, k :: 0 <= t < |m.seen| && 0 <= k ==> (k in m.seen[t] <==> Sees(h, t, k, rule)))
    && (forall t: Tid, k: nat :: (t in m.heads && k in m.heads[t]) <==> CarriesOf(h, t, k, rule))
  }

  lemma CarriedAgrees(m: Memory, h: seq<Access>, k: nat, rule: Rule)
    requires Agrees(m, h, rule)
    ensures k in Carried(m.heads) <==> Carries(h, k, rule)
  {
    CarriesOfSome(h, k, rule);
    if t: Tid :| CarriesOf(h, t, k, rule) {
      assert t in m.heads && k in m.heads[t];
    }
    if k in Carried(m.heads) {
      var t :| t in m.heads && k in m.heads[t];
      assert CarriesOf(h, t, k, rule);
    }
  }

  lemma SeenStep(m: Memory, h: seq<Access>, a: MAction, rule: Rule, t: Tid, k: nat)
    requires Agrees(m, h, rule) && MEnabled(m, a) && t < |m.seen|
    ensures var n := MApply(m, a, rule);
            |n.seen| == |m.seen| && (k in n.seen[t] <==> Sees(h + [AccessOf(m.futex, a)], t, k, rule))
  {
    SeesNext(h, AccessOf(m.futex, a), t, k, rule);
    CarriedAgrees(m, h, k, rule);
  }

  lemma HeadsStep(m: Memory, h: seq<Access>, a: MAction, rule: Rule, t: Tid, k: nat)
    requires Agrees(m, h, rule) && MEnabled(m, a)
    ensures var n := MApply(m, a, rule);
            (t in n.heads && k in n.heads[t]) <==> CarriesOf(h + [AccessOf(m.futex, a)], t, k, rule)
  {
    CarriesNext(h, AccessOf(m.futex, a), t, k, rule);
    if CarriesOf(h, t, k, rule) {
      var i :| 0 <= i < |h| && IsHead(h, i) && h[i].t == t && Continues(h, i, rule) && Sees(h[..i], t, k, rule);
      SeesMore(h, i, t, k, rule);
    }
  }

  lemma CountStep(m: Memory, h: seq<Access>, a: MAction, rule: Rule)
    requires |m.seen| == |m.futex.pc| && m.written == DataCount(h) && MEnabled(m, a)
    ensures var n := MApply(m, a, rule);
            |n.seen| == |n.futex.pc| == |m.seen| && n.written == DataCount(h + [AccessOf(m.futex, a)])
  {
    assert (h + [AccessOf(m.futex, a)])[..|h|] == h;
  }

  lemma SeenAfter(m: Memory, h: seq<Access>, a: MAction, rule: Rule, g: seq<Access>)
    requires Agrees(m, h, rule) && MEnabled(m, a) && g == h + [AccessOf(m.futex, a)]
    requires |MApply(m, a, rule).seen| == |m.seen|
    ensures forall t, k :: 0 <= t < |m.seen| && 0 <= k ==> (k in MApply(m, a, rule).seen[t] <==> Sees(g, t, k, rule))
  {
    hide Agrees, MApply, MEnabled, Sees;
    forall t, k | 0 <= t < |m.seen| && 0 <= k
      ensures k in MApply(m, a, rule).seen[t] <==> Sees(g, t, k, rule)
    {
      SeenStep(m, h, a, rule, t, k);
    }
  }

  lemma HeadsAfter(m: Memory, h: seq<Access>, a: MAction, rule: Rule, g: seq<Access>, heads: map<Tid, View>)
    requires Agrees(m, h, rule) && MEnabled(m, a) && g == h + [AccessOf(m.futex, a)]
    requires heads == MApply(m, a, rule).heads
    ensures forall t: Tid, k: nat :: (t in heads && k in heads[t]) <==> CarriesOf(g, t, k, rule)
  {
    hide Agrees, MApply, MEnabled, CarriesOf;
    forall t: Tid, k: nat
      ensures (t in heads && k in heads[t]) <==> CarriesOf(g, t, k, rule)
    {
      HeadsStep(m, h, a, rule, t, k);
    }
  }

  lemma AgreesStep(m: Memory, h: seq<Access>, a: MAction, rule: Rule)
    requires Agrees(m, h, rule) && MEnabled(m, a)
    ensures Agrees(MApply(m, a, rule), h + [AccessOf(m.futex, a)], rule)
  {
    var g := h + [AccessOf(m.futex, a)];
    CountStep(m, h, a, rule);
    hide MApply, MEnabled, Sees, CarriesOf, DataCount;
    SeenAfter(m, h, a, rule, g);
    HeadsAfter(m, h, a, rule, g, MApply(m, a, rule).heads);
  }

  lemma {:induction false} AgreesRun(m: Memory, h: seq<Access>, acts: seq<MAction>, rule: Rule)
    requires Agrees(m, h, rule) && MRuns(m, acts, rule)
    ensures Agrees(MAfter(m, acts, rule), h + History(m, acts, rule), rule)
    decreases |acts|
  {
    if acts == [] {
      assert h + [] == h;
    } else {
      var x, next := AccessOf(m.futex, acts[0]), MApply(m, acts[0], rule);
      AgreesStep(m, h, acts[0], rule);
      AgreesRun(next, h + [x], acts[1..], rule);
      assert h + [x] + History(next, acts[1..], rule) == h + History(m, acts, rule);
    }
  }

  /** Visibility is what the memory model says it is: at the end of every run, under either rule, a
      thread has seen data write k exactly if the write happens before, and the word carries it
      exactly if an acquiring read would synchronize with a release after it. */
  lemma VisibilityIsHappensBefore(s: State, acts: seq<MAction>, rule: Rule, t: Tid, k: nat)
    requires MRuns(InitMemory(s), acts, rule) && t < |s.pc|
    ensures var m, h := MAfter(InitMemory(s), acts, rule), History(InitMemory(s), acts, rule);
            && t < |m.seen| && (k in m.seen[t] <==> Sees(h, t, k, rule))
            && (k in Carried(m.heads) <==> Carries(h, k, rule))
            && m.written == DataCount(h)
  {
    AgreesRun(InitMemory(s), [], acts, rule);
    var h := History(InitMemory(s), acts, rule);
    assert [] + h == h;
    SeenCount(InitMemory(s), acts, rule);
    CarriedAgrees(MAfter(InitMemory(s), acts, rule), h, k, rule);
  }

  lemma {:induction false} SeenCount(m: Memory, acts: seq<MAction>, rule: Rule)
    requires MRuns(m, acts, rule)
    ensures |MAfter(m, acts, rule).seen| == |m.seen|
    decreases |acts|
  {
    if acts == [] {
    } else {
      SeenCount(MApply(m, acts[0], rule), acts[1..], rule);
    }
  }

  // ----- who sees nothing new, and who sees more

  /** The accesses by which thread `t` can come to see something: its own data writes, exchanges,
      and compare-exchanges that succeed. */
  predicate Learns(s: State, a: MAction, t: Tid) {
    match a
    case WriteData(u) => u == t
    case Word(b) => b.t == t && (b.Exchange? || (b.CompareExchange? && s.value == 0))
  }

  predicate NeverLearns(m: Memory, acts: seq<MAction>, rule: Rule, t: Tid)
    requires MRuns(m, acts, rule)
    decreases |acts|
  {
    acts == [] || (!Learns(m.futex, acts[0], t) && NeverLearns(MApply(m, acts[0], rule), acts[1..], rule, t))
  }

  /** Failing to take the mutex, releasing, sleeping and waking teach a thread nothing. */
  lemma {:induction false} FailuresTeachNothing(m: Memory, acts: seq<MAction>, rule: Rule, t: Tid)
    requires MRuns(m, acts, rule) && NeverLearns(m, acts, rule, t) && t < |m.seen|
    ensures |MAfter(m, acts, rule).seen| == |m.seen| && MAfter(m, acts, rule).seen[t] == m.seen[t]
    decreases |acts|
  {
    if acts == [] {
    } else {
      FailuresTeachNothing(MApply(m, acts[0], rule), acts[1..], rule, t);
    }
  }

  /** No release, and no plain store, of the word. */
  predicate OnlyReadWrites(acts: seq<MAction>) {
    forall k :: 0 <= k < |acts| ==> !(acts[k].Word? && (acts[k].a.FetchSub? || acts[k].a.StoreUnlocked?))
  }

  predicate IsAcquire(s: State, a: MAction) {
    a.Word? && (a.a.Exchange? || (a.a.CompareExchange? && s.value == 0))
  }

  /** What one acquiring read teaches its thread every later one teaches its own, while nobody
      releases: read-modify-writes keep what the word carries, whether they took the mutex or not. */
  lemma LaterReadersSeeMore(m: Memory, a: MAction, between: seq<MAction>, c: MAction, rule: Rule)
    requires MEnabled(m, a) && IsAcquire(m.futex, a)
    requires MRuns(MApply(m, a, rule), between, rule) && OnlyReadWrites(between)
    requires var n := MAfter(MApply(m, a, rule), between, rule); MEnabled(n, c) && IsAcquire(n.futex, c)
    ensures var n := MAfter(MApply(m, a, rule), between, rule);
            && a.a.t < |m.seen| && c.a.t < |MApply(n, c, rule).seen|
            && MApply(m, a, rule).seen[a.a.t] - m.seen[a.a.t] <= MApply(n, c, rule).seen[c.a.t]
  {
    HeadsKept(MApply(m, a, rule), between, rule);
  }

  lemma {:induction false} HeadsKept(m: Memory, acts: seq<MAction>, rule: Rule)
    requires MRuns(m, acts, rule) && OnlyReadWrites(acts)
    ensures MAfter(m, acts, rule).heads == m.heads
    decreases |acts|
  {
    if acts == [] {
    } else {
      assert forall k :: 0 <= k < |acts[1..]| ==> acts[1..][k] == acts[k + 1];
      HeadsKept(MApply(m, acts[0], rule), acts[1..], rule);
    }
  }
}
