/** 32-bit words. The driver sets, clears and tests single bits of them, so a word
    is the set of the numbers of its bits that are 1; WordsAreNumbers shows
    that this is exactly an unsigned 32-bit number. */
module Words {

  type Word = w: set<nat> | forall b | b in w :: b < 32

  /** A byte, as bits. */
  type BitSet8 = w: set<nat> | forall b | b in w :: b < 8

  function Pow2(n: nat): (p: nat)
    ensures p > 0
  {
    if n == 0 then 1 else 2 * Pow2(n - 1)
  }

  function ValueBelow(w: set<nat>, n: nat): nat {
    if n == 0 then 0 else ValueBelow(w, n - 1) + if n - 1 in w then Pow2(n - 1) else 0
  }

  /** The number that a word denotes. */
  function Value(w: Word): nat { ValueBelow(w, 32) }

  function BitsOf(v: nat, n: nat): set<nat> {
    if n == 0 then {}
    else if v >= Pow2(n - 1) then {n - 1} + BitsOf(v - Pow2(n - 1), n - 1)
    else BitsOf(v, n - 1)
  }

  lemma {:induction false} BitsOfBelow(v: nat, n: nat)
    ensures forall b | b in BitsOf(v, n) :: b < n
  {
    if n > 0 {
      BitsOfBelow(if v >= Pow2(n - 1) then v - Pow2(n - 1) else v, n - 1);
    }
  }

  lemma {:induction false} ValueIgnoresHighBits(w: set<nat>, x: set<nat>, n: nat)
    requires forall b | 0 <= b < n :: b in w <==> b in x
    ensures ValueBelow(w, n) == ValueBelow(x, n)
  {
    if n > 0 {
      ValueIgnoresHighBits(w, x, n - 1);
    }
  }

  lemma {:induction false} ValueOfBits(v: nat, n: nat)
    requires v < Pow2(n)
    ensures ValueBelow(BitsOf(v, n), n) == v
  {
    if n > 0 {
      var rest := if v >= Pow2(n - 1) then v - Pow2(n - 1) else v;
      ValueOfBits(rest, n - 1);
      BitsOfBelow(rest, n - 1);
      ValueIgnoresHighBits(BitsOf(v, n), BitsOf(rest, n - 1), n - 1);
    }
  }

  lemma {:induction false} ValueBound(w: set<nat>, n: nat)
    ensures ValueBelow(w, n) < Pow2(n)
  {
    if n > 0 {
      ValueBound(w, n - 1);
    }
  }

  lemma {:induction false} BitsOfValue(w: set<nat>, n: nat, b: nat)
    requires b < n
    ensures b in BitsOf(ValueBelow(w, n), n) <==> b in w
  {
    ValueBound(w, n - 1);
    BitsOfBelow(ValueBelow(w, n - 1), n - 1);
    if b < n - 1 {
      BitsOfValue(w, n - 1, b);
    }
  }

  /** Words and the numbers below 2^32 are in one-to-one correspondence. */
  lemma WordsAreNumbers(w: Word, v: nat)
    requires v < Pow2(32)
    ensures Value(w) < Pow2(32) && BitsOf(Value(w), 32) == w
    ensures (forall b | b in BitsOf(v, 32) :: b < 32) && Value(BitsOf(v, 32)) == v
  {
    ValueBound(w, 32);
    BitsOfBelow(Value(w), 32);
    forall b: nat | b < 32 ensures b in BitsOf(Value(w), 32) <==> b in w {
      BitsOfValue(w, 32, b);
    }
    BitsOfBelow(v, 32);
    ValueOfBits(v, 32);
  }
}
