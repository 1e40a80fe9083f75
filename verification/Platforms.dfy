// The two ways the wrapper is made safe against ABA.

module Platforms {
  import opened Common

  type Tid = nat

  /** `Dwcas(w)`: a counter of `w` bits beside the data. `LlSc`: an exclusive monitor a thread. */
  datatype Platform = Dwcas(w: nat) | LlSc

  /** How many values the counter has. */
  function Range(platform: Platform): (m: nat)
    ensures m > 0
  {
    if platform.Dwcas? then Pow2(platform.w) else 1
  }

  /** Adding one to a counter with `m` values. */
  function Increment(c: nat, m: nat): nat
    requires m > 0
  {
    if c + 1 >= m then 0 else c + 1
  }

  /** The counter of a word that has been modified `version` times; a new one has 1. */
  function CounterAt(platform: Platform, version: nat): (c: nat)
    ensures c < Range(platform)
  {
    Increment(if version == 0 then 0 else CounterAt(platform, version - 1), Range(platform))
  }

  /** It wraps around modulo its range. */
  lemma {:induction false} CounterIsModulo(platform: Platform, version: nat)
    ensures CounterAt(platform, version) == (1 + version) % Range(platform)
  {
    var m := Range(platform);
    if version == 0 {
      IncrementIsModulo(0, m);
    } else {
      CounterIsModulo(platform, version - 1);
      IncrementIsModulo(version, m);
    }
  }

  lemma IncrementIsModulo(k: nat, m: nat)
    requires m > 0
    ensures Increment(k % m, m) == (1 + k) % m
  {
    ModSuccessor(k, m);
    if k % m + 1 < m {
      QuotientIs(k % m + 1, m, 0, k % m + 1);
    } else {
      QuotientIs(k % m + 1, m, 1, 0);
    }
  }

  /** Within one turn of the counter, equal counters mean equal versions. */
  lemma CounterInjective(platform: Platform, u: nat, v: nat)
    requires u <= v < u + Range(platform) && CounterAt(platform, u) == CounterAt(platform, v)
    ensures u == v
  {
    CounterIsModulo(platform, u);
    CounterIsModulo(platform, v);
    ModInjective(1 + u, 1 + v, Range(platform));
  }

  /** A counter is back exactly after any number of full turns. */
  lemma CounterRepeats(w: nat, version: nat, k: nat)
    ensures CounterAt(Dwcas(w), version + k) == CounterAt(Dwcas(w), version) <==> k % Pow2(w) == 0
  {
    CounterIsModulo(Dwcas(w), version);
    CounterIsModulo(Dwcas(w), version + k);
    ModShift(1 + version, k, Pow2(w));
  }
}
