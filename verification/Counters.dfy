/** Optional values, used in place of nullable pointers. */
module Options {
  datatype Option<+T> = None | Some(value: T)
}

/**
 The sharded reference count of one object: one tagged counter per shard.
 The words that carry these pairs are the subject of module `TaggedWord`.
 */
module Counters {

  /** A reference count that may be negative, and the tag that a decrement leaves behind. */
  datatype Counter = Counter(n: int, tag: bool)

  const Zero := Counter(0, false)

  function Increment(c: Counter): Counter { c.(n := c.n + 1) }

  function DecrementAndTag(c: Counter): Counter { Counter(c.n - 1, true) }

  function ClearTag(c: Counter): Counter { c.(tag := false) }

  /** The reference counts of the first `k` shards, added up in shard order. */
  function SumTo(ctr: seq<Counter>, k: nat): int
    requires k <= |ctr|
  {
    if k == 0 then 0 else SumTo(ctr, k - 1) + ctr[k - 1].n
  }

  function Sum(ctr: seq<Counter>): int { SumTo(ctr, |ctr|) }

  lemma {:induction false} SumToUpdate(ctr: seq<Counter>, j: nat, c: Counter, k: nat)
    requires j < |ctr| && k <= |ctr|
    ensures SumTo(ctr[j := c], k) == SumTo(ctr, k) + if j < k then c.n - ctr[j].n else 0
  {
    if k > 0 {
      SumToUpdate(ctr, j, c, k - 1);
    }
  }

  /** Shard-wise order of counts carries over to the sums; a strict shard makes the sum strict. */
  lemma {:induction false} SumToMonotone(a: seq<Counter>, b: seq<Counter>, k: nat)
    requires |a| == |b| && k <= |a|
    requires forall j :: 0 <= j < k ==> a[j].n <= b[j].n
    ensures SumTo(a, k) <= SumTo(b, k)
    ensures SumTo(a, k) == SumTo(b, k) ==> forall j :: 0 <= j < k ==> a[j].n == b[j].n
  {
    if k > 0 {
      SumToMonotone(a, b, k - 1);
    }
  }

  lemma {:induction false} SumToZero(ctr: seq<Counter>, k: nat)
    requires k <= |ctr|
    requires forall j :: 0 <= j < k ==> ctr[j].n == 0
    ensures SumTo(ctr, k) == 0
  {
    if k > 0 {
      SumToZero(ctr, k - 1);
    }
  }

  /** A fresh object: its creator's shard counts one, every other shard counts zero. */
  function FreshCounters(shards: nat, shard: nat): (ctr: seq<Counter>)
    requires shard < shards
    ensures |ctr| == shards && Sum(ctr) == 1
    ensures forall j :: 0 <= j < shards ==> !ctr[j].tag
  {
    var zeros := seq(shards, _ => Zero);
    SumToZero(zeros, shards);
    SumToUpdate(zeros, shard, Increment(Zero), shards);
    zeros[shard := Increment(Zero)]
  }

  // ----- a scan that clears tags

  function Total(ns: seq<int>, k: nat): int
    requires k <= |ns|
  {
    if k == 0 then 0 else Total(ns, k - 1) + ns[k - 1]
  }

  lemma {:induction false} TotalExtends(ns: seq<int>, n: int, k: nat)
    requires k <= |ns|
    ensures Total(ns + [n], k) == Total(ns, k)
  {
    if k > 0 {
      TotalExtends(ns, n, k - 1);
    }
  }

  /** Shard `j` has not been decremented since it held `ns[j]`, or its tag says so. */
  predicate ShardSince(ctr: seq<Counter>, ns: seq<int>, j: nat)
    requires j < |ctr| && j < |ns|
  {
    ctr[j].tag || ctr[j].n >= ns[j]
  }
}
