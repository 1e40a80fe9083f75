// Optional values, sums of a weight over a sequence, powers of two and remainders.

module Common {

  datatype Option<+T> = None | Some(value: T)

  /** The sum of `f` over the elements of `s`. */
  ghost function SumBy<T>(f: T -> nat, s: seq<T>): nat {
    if s == [] then 0 else f(s[0]) + SumBy(f, s[1..])
  }

  /** Replacing one element changes the sum by the difference of two weights. */
  lemma {:induction false} SumByUpdate<T>(f: T -> nat, s: seq<T>, k: nat, x: T)
    requires k < |s|
    ensures SumBy(f, s[k := x]) + f(s[k]) == SumBy(f, s) + f(x)
  {
    if k == 0 {
      assert s[k := x][1..] == s[1..];
    } else {
      assert s[k := x][1..] == s[1..][k - 1 := x];
      SumByUpdate(f, s[1..], k - 1, x);
    }
  }

  /** If no element gains more than `d`, the sum gains at most `d` an element. */
  lemma {:induction false} SumByGain<T>(f: T -> nat, g: T -> nat, s: seq<T>, d: nat)
    requires forall k :: 0 <= k < |s| ==> g(s[k]) <= f(s[k]) + d
    ensures SumBy(g, s) <= SumBy(f, s) + d * |s|
  {
    if s == [] {
    } else {
      assert forall k :: 0 <= k < |s[1..]| ==> s[1..][k] == s[k + 1];
      SumByGain(f, g, s[1..], d);
      assert d * |s| == d * |s[1..]| + d;
    }
  }

  /** The same, when one element is known to gain nothing. */
  lemma {:induction false} SumByGainBut<T>(f: T -> nat, g: T -> nat, s: seq<T>, d: nat, t: nat)
    requires forall k :: 0 <= k < |s| ==> g(s[k]) <= f(s[k]) + d
    requires t < |s| && g(s[t]) <= f(s[t])
    ensures SumBy(g, s) <= SumBy(f, s) + d * (|s| - 1)
  {
    assert forall k :: 0 <= k < |s[1..]| ==> s[1..][k] == s[k + 1];
    if t == 0 {
      SumByGain(f, g, s[1..], d);
    } else {
      SumByGainBut(f, g, s[1..], d, t - 1);
      assert d * (|s| - 1) == d * (|s[1..]| - 1) + d;
    }
  }

  /** A sum is zero when every weight is. */
  lemma {:induction false} SumByZero<T>(f: T -> nat, s: seq<T>)
    requires forall k :: 0 <= k < |s| ==> f(s[k]) == 0
    ensures SumBy(f, s) == 0
  {
    if s == [] {
    } else {
      assert forall k :: 0 <= k < |s[1..]| ==> s[1..][k] == s[k + 1];
      SumByZero(f, s[1..]);
    }
  }

  /** How many elements of `s` satisfy `f`. */
  function Count<T>(f: T -> bool, s: seq<T>): nat {
    if s == [] then 0 else (if f(s[0]) then 1 else 0) + Count(f, s[1..])
  }

  /** It is the number of places where they are. */
  lemma {:induction false} CountIsCardinal<T>(f: T -> bool, s: seq<T>)
    ensures Count(f, s) == |set k | 0 <= k < |s| && f(s[k])|
    decreases |s|
  {
    if s == [] {
    } else {
      var init, last := s[..|s| - 1], |s| - 1;
      var before, all := set k | 0 <= k < |init| && f(init[k]), set k | 0 <= k < |s| && f(s[k]);
      CountIsCardinal(f, init);
      CountLast(f, init, s[last]);
      assert s == init + [s[last]];
      assert all == before + if f(s[last]) then {last} else {};
    }
  }

  lemma {:induction false} CountLast<T>(f: T -> bool, s: seq<T>, x: T)
    ensures Count(f, s + [x]) == Count(f, s) + if f(x) then 1 else 0
    decreases |s|
  {
    if s == [] {
      assert ([] + [x])[1..] == [];
    } else {
      assert (s + [x])[1..] == s[1..] + [x];
      CountLast(f, s[1..], x);
    }
  }

  lemma TimesSuccessor(c: nat, k: nat)
    ensures c * (1 + k) == c + c * k
  {
  }

  /** What a list of batches holds at place `i`; nothing beyond its end. */
  function Batch<A>(env: seq<seq<A>>, i: nat): seq<A> {
    if i < |env| then env[i] else []
  }

  function Pow2(w: nat): (m: nat)
    ensures m > 0
    ensures w > 0 ==> m % 2 == 0
  {
    if w == 0 then 1 else 2 * Pow2(w - 1)
  }

  lemma {:induction false} Pow2Sum(a: nat, b: nat)
    ensures Pow2(a + b) == Pow2(a) * Pow2(b)
    decreases a
  {
    if a == 0 {
    } else {
      Pow2Sum(a - 1, b);
      assert Pow2(a) * Pow2(b) == 2 * (Pow2(a - 1) * Pow2(b));
    }
  }

  lemma Pow2Byte(a: nat)
    ensures Pow2(a + 8) == 0x100 * Pow2(a)
  {
    assert Pow2(a + 2) == 4 * Pow2(a);
    assert Pow2(a + 4) == 4 * Pow2(a + 2);
    assert Pow2(a + 6) == 4 * Pow2(a + 4);
  }

  lemma Pow2Small()
    ensures Pow2(0) == 1 && Pow2(1) == 2
  {
  }

  /** The numbers of values of the counters in use. */
  lemma Pow2Words()
    ensures Pow2(0) == 1 && Pow2(1) == 2 && Pow2(8) == 0x100
    ensures Pow2(32) == 0x1_0000_0000 && Pow2(64) == 0x1_0000_0000_0000_0000
  {
    hide Pow2;
    Pow2Small();
    Pow2Byte(0);
    Pow2Byte(8);
    Pow2Byte(16);
    Pow2Byte(24);
    Pow2Byte(32);
    Pow2Byte(40);
    Pow2Byte(48);
    Pow2Byte(56);
  }

  lemma MultipleIsBig(m: int, d: int)
    requires m > 0
    ensures d >= 1 ==> m * d >= m
    ensures d <= -1 ==> m * d <= -m
  {
  }

  lemma QuotientIs(k: int, m: int, q: int, r: int)
    requires m > 0 && k == m * q + r && 0 <= r < m
    ensures k % m == r
  {
    MultipleIsBig(m, k / m - q);
    assert m * (k / m - q) == m * (k / m) - m * q;
  }

  /** Adding one to a number that has wrapped around. */
  lemma ModSuccessor(k: nat, m: nat)
    requires m > 0
    ensures (k % m + 1) % m == (k + 1) % m
  {
    var q, r := k / m, k % m;
    assert m * (q + 1) == m * q + m;
    if r + 1 < m {
      QuotientIs(k + 1, m, q, r + 1);
      QuotientIs(r + 1, m, 0, r + 1);
    } else {
      QuotientIs(k + 1, m, q + 1, 0);
      QuotientIs(r + 1, m, 1, 0);
    }
  }

  /** Adding `k` leaves the remainder as it is exactly if `k` is a multiple. */
  lemma ModShift(j: nat, k: nat, m: nat)
    requires m > 0
    ensures (j + k) % m == j % m <==> k % m == 0
  {
    if k % m == 0 {
      assert m * (j / m + k / m) == m * (j / m) + m * (k / m);
      QuotientIs(j + k, m, j / m + k / m, j % m);
    }
    if (j + k) % m == j % m {
      assert m * ((j + k) / m - j / m) == m * ((j + k) / m) - m * (j / m);
      QuotientIs(k, m, (j + k) / m - j / m, 0);
    }
  }

  /** Two numbers less than `m` apart are equal if they wrap to the same value. */
  lemma ModInjective(j: nat, k: nat, m: nat)
    requires j <= k < j + m && j % m == k % m
    ensures j == k
  {
    MultipleIsBig(m, k / m - j / m);
    assert m * (k / m - j / m) == m * (k / m) - m * (j / m);
  }
}
