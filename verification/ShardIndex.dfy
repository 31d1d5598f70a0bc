/** How many shards there are, and how an index is brought into range. */
module ShardIndex {
  import opened Words

  const MAX_SHARD_COUNT := 256
  const MIN_EXPONENT := 0
  const MAX_EXPONENT := 8

  datatype ShardCount = ShardCount(shard_count: nat, mask: nat)

  function Clamp(v: int, lo: int, hi: int): int
    requires lo <= hi
  {
    if v < lo then lo else if v > hi then hi else v
  }

  function FromExponentAdjusted(exponent: nat): (r: ShardCount)
    ensures 1 <= r.shard_count <= MAX_SHARD_COUNT
  {
    var e := Clamp(exponent, MIN_EXPONENT, MAX_EXPONENT);
    SmallPowers(e);
    ShardCount(Pow2(e), Pow2(e) - 1)
  }

  function CountOnes(n: nat): nat { if n == 0 then 0 else n % 2 + CountOnes(n / 2) }

  function TrailingZeros(n: nat): nat
    requires n > 0
  {
    if n % 2 == 1 then 0 else 1 + TrailingZeros(n / 2)
  }

  /** The position of the highest set bit. */
  function ILog2(n: nat): nat
    requires n > 0
  {
    if n == 1 then 0 else 1 + ILog2(n / 2)
  }

  /** The code refuses zero by an assertion. */
  function FromUsizeAdjusted(num: nat): ShardCount
    requires num != 0
  {
    if CountOnes(num) == 1 then FromExponentAdjusted(TrailingZeros(num))
    else FromExponentAdjusted(ILog2(num) + 1)
  }

  /** `num & mask`, of two words whose sign bit is clear. */
  function Modulo(count: ShardCount, num: nat): int {
    Value(And(Bits(num, 65), Bits(count.mask, 65)))
  }

  // ----- rounding up to a power of two

  lemma SmallPowers(e: nat)
    requires e <= MAX_EXPONENT
    ensures 1 <= Pow2(e) <= MAX_SHARD_COUNT
    ensures e == MAX_EXPONENT ==> Pow2(e) == MAX_SHARD_COUNT
  {
    Pow2Grows(e, MAX_EXPONENT);
    Pow2Grows(0, e);
    assert Pow2(4) == 16;
  }

  lemma {:induction false} Pow2Grows(a: nat, b: nat)
    requires a <= b
    ensures 0 < Pow2(a) <= Pow2(b)
    ensures a < b ==> Pow2(a) < Pow2(b)
    decreases a + b
  {
    if a < b {
      Pow2Grows(a, b - 1);
    } else if a > 0 {
      Pow2Grows(a - 1, b - 1);
    }
  }

  lemma {:induction false} NoOnes(n: nat)
    ensures CountOnes(n) == 0 <==> n == 0
  {
    if n > 0 {
      NoOnes(n / 2);
    }
  }

  /** A single bit stands at its number of trailing zeros. */
  lemma {:induction false} OneBit(n: nat)
    requires n > 0
    ensures CountOnes(n) == 1 <==> n == Pow2(TrailingZeros(n))
  {
    if n % 2 == 1 {
      NoOnes(n / 2);
    } else {
      OneBit(n / 2);
    }
  }

  lemma {:induction false} HighestBit(n: nat)
    requires n > 0
    ensures Pow2(ILog2(n)) <= n < Pow2(ILog2(n) + 1)
  {
    if n > 1 {
      HighestBit(n / 2);
    }
  }

  lemma {:induction false} OneBitOfPow2(e: nat)
    ensures Pow2(e) > 0 && CountOnes(Pow2(e)) == 1
  {
    if e > 0 {
      OneBitOfPow2(e - 1);
    }
  }

  /**
   The shard count is the smallest power of two that is not below `num`, except that it never
   exceeds 256.
   */
  lemma RoundsUp(num: nat, e: nat)
    requires num != 0
    ensures exists k: nat :: k <= MAX_EXPONENT && FromUsizeAdjusted(num).shard_count == Pow2(k)
    ensures num <= MAX_SHARD_COUNT ==> num <= FromUsizeAdjusted(num).shard_count
    ensures num > MAX_SHARD_COUNT ==> FromUsizeAdjusted(num).shard_count == MAX_SHARD_COUNT
    ensures Pow2(e) >= num ==> Pow2(e) >= FromUsizeAdjusted(num).shard_count
  {
    var raw := RoundUpExponent(num);
    RoundUpExact(num, e);
    SmallPowers(Clamp(raw, MIN_EXPONENT, MAX_EXPONENT));
    if raw > MAX_EXPONENT {
      SmallPowers(MAX_EXPONENT);
      Pow2Grows(MAX_EXPONENT, raw - 1);
      Pow2Grows(MAX_EXPONENT, raw);
    } else {
      SmallPowers(MAX_EXPONENT);
      Pow2Grows(raw, MAX_EXPONENT);
    }
  }

  function RoundUpExponent(num: nat): nat
    requires num != 0
  {
    if CountOnes(num) == 1 then TrailingZeros(num) else ILog2(num) + 1
  }

  lemma RoundUpExact(num: nat, e: nat)
    requires num != 0
    ensures num <= Pow2(RoundUpExponent(num))
    ensures RoundUpExponent(num) > 0 ==> Pow2(RoundUpExponent(num) - 1) < num
    ensures Pow2(e) >= num ==> Pow2(e) >= Pow2(RoundUpExponent(num))
  {
    var raw := RoundUpExponent(num);
    OneBit(num);
    HighestBit(num);
    if CountOnes(num) == 1 {
      if raw > 0 { Pow2Grows(raw - 1, raw); }
    } else {
      OneBitOfPow2(ILog2(num));
    }
    if raw > 0 && e < raw {
      Pow2Grows(e, raw - 1);
    } else {
      Pow2Grows(raw, e);
    }
  }

  // ----- the mask

  lemma MultiplesLieApart(d: int, k: int)
    requires d > 0
    ensures k > 0 ==> d * k >= d
    ensures k < 0 ==> d * k <= -d
  {
    if k > 0 {
      assert d * (k - 1) >= 0;
    } else if k < 0 {
      assert d * (-k - 1) >= 0;
    }
  }

  lemma RemainderSplits(v: nat, p: nat)
    requires p > 0
    ensures v % (2 * p) == v % 2 + 2 * ((v / 2) % p)
  {
    var r := v % 2 + 2 * ((v / 2) % p);
    var k := v / (2 * p) - (v / 2) / p;
    assert 2 * p * (v / (2 * p)) == v - v % (2 * p);
    assert p * ((v / 2) / p) == v / 2 - (v / 2) % p;
    Distribute(2 * p, v / (2 * p), (v / 2) / p);
    assert 2 * p * k == r - v % (2 * p);
    MultiplesLieApart(2 * p, k);
  }

  lemma Distribute(d: int, a: int, b: int)
    ensures d * (a - b) == d * a - d * b
  {
  }

  /** Masking with `e` low ones takes the remainder, in words of any width. */
  lemma {:induction false} MaskIsRemainder(v: nat, e: nat, n: nat)
    requires e < n && v < Pow2(n - 1)
    ensures Pow2(e) > 0 && Value(And(Bits(v, n), Bits(Pow2(e) - 1, n))) == v % Pow2(e)
    decreases e
  {
    Pow2Grows(0, e);
    var w := And(Bits(v, n), Bits(Pow2(e) - 1, n));
    if e == 0 {
      forall i | 0 <= i < n ensures !w[i] {
        BitsOfZero(n, i);
      }
      ValueOfZeros(w);
    } else {
      MaskIsRemainder(v / 2, e - 1, n - 1);
      Pow2Grows(0, e - 1);
      RemainderSplits(v, Pow2(e - 1));
      MaskSplits(v, e, n);
      ValueSplits(w, v % 2 == 1, And(Bits(v / 2, n - 1), Bits(Pow2(e - 1) - 1, n - 1)));
    }
  }

  lemma MaskSplits(v: nat, e: nat, n: nat)
    requires 0 < e < n
    ensures And(Bits(v, n), Bits(Pow2(e) - 1, n))
         == [v % 2 == 1] + And(Bits(v / 2, n - 1), Bits(Pow2(e - 1) - 1, n - 1))
  {
    assert (Pow2(e) - 1) / 2 == Pow2(e - 1) - 1;
    assert Bits(Pow2(e) - 1, n) == [true] + Bits(Pow2(e - 1) - 1, n - 1);
  }

  /** `modulo` is the remainder, for every shard count the program can have, and fits a byte. */
  lemma ModuloIsRemainder(exponent: nat, num: nat)
    requires num < Pow2(64)
    ensures Modulo(FromExponentAdjusted(exponent), num) == num % FromExponentAdjusted(exponent).shard_count
    ensures 0 <= Modulo(FromExponentAdjusted(exponent), num) < 256
  {
    MaskIsRemainder(num, Clamp(exponent, MIN_EXPONENT, MAX_EXPONENT), 65);
  }

  /** The same for a shard count that was rounded up. */
  lemma ModuloOfRounded(num: nat, v: nat)
    requires num != 0 && v < Pow2(64)
    ensures Modulo(FromUsizeAdjusted(num), v) == v % FromUsizeAdjusted(num).shard_count
    ensures FromUsizeAdjusted(num).mask == FromUsizeAdjusted(num).shard_count - 1
  {
    ModuloIsRemainder(if CountOnes(num) == 1 then TrailingZeros(num) else ILog2(num) + 1, v);
  }
}
