// The change counter as the machine has it: a word of w bits, incremented by carrying. Its values
// are exactly the numbers below 2^w, and its increment is the one the platforms use.

module WordBits {
  import opened Common
  import opened Platforms

  /** Least significant bit first. */
  type Bits = seq<bool>

  function ValueOf(b: Bits): nat {
    if b == [] then 0 else (if b[0] then 1 else 0) + 2 * ValueOf(b[1..])
  }

  function BitsOf(v: nat, w: nat): Bits
    decreases w
  {
    if w == 0 then [] else [v % 2 == 1] + BitsOf(v / 2, w - 1)
  }

  /** Add one; the carry out of the last bit is lost. */
  function Carry(b: Bits): Bits {
    if b == [] then [] else if b[0] then [false] + Carry(b[1..]) else [true] + b[1..]
  }

  /** No two words of the same width have the same value, and it is less than 2^w. */
  lemma {:induction false} ValueIsOwn(b: Bits)
    ensures ValueOf(b) < Pow2(|b|) && BitsOf(ValueOf(b), |b|) == b
    decreases |b|
  {
    if b == [] {
    } else {
      ValueIsOwn(b[1..]);
      assert ValueOf(b) / 2 == ValueOf(b[1..]);
      assert b == [b[0]] + b[1..];
    }
  }

  /** Every number below 2^w is the value of a word of w bits. */
  lemma {:induction false} EveryValue(v: nat, w: nat)
    requires v < Pow2(w)
    ensures |BitsOf(v, w)| == w && ValueOf(BitsOf(v, w)) == v
    decreases w
  {
    if w == 0 {
    } else {
      EveryValue(v / 2, w - 1);
      assert BitsOf(v, w)[1..] == BitsOf(v / 2, w - 1);
    }
  }

  /** Carrying is incrementing, from 2^w - 1 back to 0. */
  lemma {:induction false} CarryIsIncrement(b: Bits)
    ensures |Carry(b)| == |b| && ValueOf(Carry(b)) == Increment(ValueOf(b), Pow2(|b|))
    decreases |b|
  {
    ValueIsOwn(b);
    if b == [] {
    } else if b[0] {
      CarryIsIncrement(b[1..]);
      ValueIsOwn(b[1..]);
      assert Carry(b)[1..] == Carry(b[1..]);
    } else {
      assert Carry(b)[1..] == b[1..];
      ValueIsOwn([true] + b[1..]);
    }
  }

  function Zeros(w: nat): Bits {
    seq(w, _ => false)
  }

  lemma {:induction false} ZerosAreZero(w: nat)
    ensures ValueOf(Zeros(w)) == 0
    decreases w
  {
    if w == 0 {
    } else {
      ZerosAreZero(w - 1);
      assert Zeros(w)[1..] == Zeros(w - 1);
    }
  }

  /** The counter word after `version` modifications: zero, incremented once by the constructor and
      once by each modification. */
  function CounterWord(w: nat, version: nat): Bits
    decreases version
  {
    Carry(if version == 0 then Zeros(w) else CounterWord(w, version - 1))
  }

  lemma {:induction false} CounterIsWord(w: nat, version: nat)
    ensures |CounterWord(w, version)| == w
    ensures ValueOf(CounterWord(w, version)) == CounterAt(Dwcas(w), version)
    decreases version
  {
    if version == 0 {
      ZerosAreZero(w);
      CarryIsIncrement(Zeros(w));
    } else {
      CounterIsWord(w, version - 1);
      CarryIsIncrement(CounterWord(w, version - 1));
    }
  }

  /** The word is the same again after k modifications if and only if 2^w divides k. */
  lemma WordRepeats(w: nat, version: nat, k: nat)
    ensures CounterWord(w, version + k) == CounterWord(w, version) <==> k % Pow2(w) == 0
  {
    CounterIsWord(w, version);
    CounterIsWord(w, version + k);
    CounterRepeats(w, version, k);
    ValueIsOwn(CounterWord(w, version));
    ValueIsOwn(CounterWord(w, version + k));
  }

  /** A 64-bit counter takes every modification but each 2^64-th to a value other than the one it
      started from. */
  lemma Counter64(version: nat, k: nat)
    ensures CounterWord(64, version + k) == CounterWord(64, version) <==> k % 0x1_0000_0000_0000_0000 == 0
  {
    Pow2Words();
    WordRepeats(64, version, k);
  }
}
