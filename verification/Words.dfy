/** Two's complement words as sequences of bits, least significant bit first. */
module Words {

  function Bit(b: bool): int { if b then 1 else 0 }

  /** The signed number that a word stands for: its last bit carries the sign. */
  function Value(w: seq<bool>): int
    requires w != []
  {
    if |w| == 1 then -Bit(w[0]) else Bit(w[0]) + 2 * Value(w[1..])
  }

  /** The low `n` bits of a number. */
  function Bits(v: int, n: nat): (w: seq<bool>)
    requires n > 0
    ensures |w| == n
    decreases n
  {
    if n == 1 then [v % 2 == 1] else [v % 2 == 1] + Bits(v / 2, n - 1)
  }

  function Pow2(n: nat): int {
    if n == 0 then 1 else 2 * Pow2(n - 1)
  }

  lemma {:induction false} ValueInRange(w: seq<bool>)
    requires w != []
    ensures -Pow2(|w| - 1) <= Value(w) < Pow2(|w| - 1)
  {
    if |w| > 1 {
      ValueInRange(w[1..]);
    }
  }

  /** Every number in range is the value of exactly one word. */
  lemma {:induction false} ValueOfBits(v: int, n: nat)
    requires n > 0 && -Pow2(n - 1) <= v < Pow2(n - 1)
    ensures Value(Bits(v, n)) == v
    decreases n
  {
    if n > 1 {
      ValueOfBits(v / 2, n - 1);
      assert Bits(v, n)[1..] == Bits(v / 2, n - 1);
    }
  }

  lemma {:induction false} BitsOfValue(w: seq<bool>)
    requires w != []
    ensures Bits(Value(w), |w|) == w
  {
    if |w| == 1 {
      assert w == [w[0]];
    } else {
      BitsOfValue(w[1..]);
      assert w == [w[0]] + w[1..];
    }
  }

  // ----- bitwise operators

  function Or(a: seq<bool>, b: seq<bool>): seq<bool>
    requires |a| == |b|
  {
    seq(|a|, i requires 0 <= i < |a| => a[i] || b[i])
  }

  function And(a: seq<bool>, b: seq<bool>): seq<bool>
    requires |a| == |b|
  {
    seq(|a|, i requires 0 <= i < |a| => a[i] && b[i])
  }

  function Not(a: seq<bool>): seq<bool> { seq(|a|, i requires 0 <= i < |a| => !a[i]) }

  /** One step of the arithmetic right shift: the sign bit is copied. */
  function ShiftRight(a: seq<bool>): seq<bool>
    requires a != []
  {
    a[1..] + [a[|a| - 1]]
  }

  lemma {:induction false} BitsOfZero(n: nat, i: nat)
    requires i < n
    ensures !Bits(0, n)[i]
  {
    if i > 0 {
      BitsOfZero(n - 1, i - 1);
    }
  }

  /** The word of one has its lowest bit set and no other. */
  lemma BitsOfOne(n: nat)
    requires n > 1
    ensures Bits(1, n)[0] && forall i :: 0 < i < n ==> !Bits(1, n)[i]
  {
    assert Bits(1, n) == [true] + Bits(0, n - 1);
    forall i | 0 < i < n ensures !Bits(1, n)[i] {
      BitsOfZero(n - 1, i - 1);
    }
  }

  /** A word is its lowest bit and twice the rest. */
  lemma ValueSplits(w: seq<bool>, b: bool, rest: seq<bool>)
    requires rest != [] && w == [b] + rest
    ensures Value(w) == Bit(b) + 2 * Value(rest)
  {
    assert w[1..] == rest;
  }

  lemma ParityOfValue(w: seq<bool>)
    requires |w| > 1
    ensures Value(w) % 2 == Bit(w[0])
  {
  }

  /** Words that differ at most in their lowest bit. */
  lemma LowBitDiffers(w: seq<bool>, r: seq<bool>)
    requires |w| == |r| > 1 && forall i :: 0 < i < |w| ==> r[i] == w[i]
    ensures Value(r) == Value(w) - Value(w) % 2 + Bit(r[0])
  {
    assert r[1..] == w[1..];
    ParityOfValue(w);
  }

  /** Or-ing one sets the lowest bit. */
  lemma OrOne(w: seq<bool>)
    requires |w| > 1
    ensures Value(Or(w, Bits(1, |w|))) == Value(w) - Value(w) % 2 + 1
  {
    BitsOfOne(|w|);
    LowBitDiffers(w, Or(w, Bits(1, |w|)));
  }

  /** And-ing the complement of one clears it. */
  lemma AndNotOne(w: seq<bool>)
    requires |w| > 1
    ensures Value(And(w, Not(Bits(1, |w|)))) == Value(w) - Value(w) % 2
  {
    BitsOfOne(|w|);
    LowBitDiffers(w, And(w, Not(Bits(1, |w|))));
  }

  lemma {:induction false} ValueOfZeros(w: seq<bool>)
    requires w != [] && forall i :: 0 <= i < |w| ==> !w[i]
    ensures Value(w) == 0
  {
    if |w| > 1 {
      ValueOfZeros(w[1..]);
    }
  }

  /** And-ing one reads it. */
  lemma AndOne(w: seq<bool>)
    requires |w| > 1
    ensures Value(And(w, Bits(1, |w|))) == Value(w) % 2
  {
    BitsOfOne(|w|);
    var r := And(w, Bits(1, |w|));
    ValueOfZeros(r[1..]);
    ParityOfValue(w);
  }

  /** The arithmetic right shift halves and rounds down, for negative words too. */
  lemma {:induction false} ShiftRightHalves(w: seq<bool>)
    requires w != []
    ensures Value(ShiftRight(w)) == Value(w) / 2
  {
    if |w| == 1 {
      assert ShiftRight(w) == w;
    } else {
      SignCopy(w[1..]);
      assert ShiftRight(w) == w[1..] + [w[1..][|w| - 2]];
    }
  }

  lemma {:induction false} SignCopy(w: seq<bool>)
    requires w != []
    ensures Value(w + [w[|w| - 1]]) == Value(w)
  {
    if |w| > 1 {
      SignCopy(w[1..]);
      assert (w + [w[|w| - 1]])[1..] == w[1..] + [w[1..][|w| - 2]];
    } else {
      assert w + [w[0]] == [w[0], w[0]];
      assert [w[0], w[0]][1..] == [w[0]];
    }
  }
}
