/**
 The two-scan theorem by itself: why reading the shards one by one is enough.

 A history is the sequence of all values the counters of one object ever had. Between two of them
 one thread made one access to one shard: an increment, a decrement, or the clearing of a tag.
 */
module TwoScan {
  import opened Counters

  datatype Access = Inc(j: nat) | Dec(j: nat) | Clear(j: nat)

  predicate AccessStep(c: seq<Counter>, c': seq<Counter>, a: Access) {
    && a.j < |c|
    && c' == c[a.j := match a
                      case Inc(_) => Increment(c[a.j])
                      case Dec(_) => DecrementAndTag(c[a.j])
                      case Clear(_) => ClearTag(c[a.j])]
  }

  /** Before access `k` the counters are `h[k]`, after it `h[k + 1]`. */
  ghost predicate History(h: seq<seq<Counter>>, acts: seq<Access>) {
    |h| == |acts| + 1 && forall k :: 0 <= k < |acts| ==> AccessStep(h[k], h[k + 1], acts[k])
  }

  /**
   Shard `j` has its tag cleared by access `clear[j]` of the first scan and is read without a tag
   at time `read[j]` of the second; nobody clears the tag in between.
   */
  ghost predicate TwoScans(h: seq<seq<Counter>>, acts: seq<Access>, clear: seq<nat>, read: seq<nat>) {
    && History(h, acts) && |clear| == |read| == |h[0]|
    && forall j :: 0 <= j < |read| ==>
         && clear[j] < read[j] < |h|
         && acts[clear[j]] == Clear(j)
         && (forall k :: clear[j] < k < read[j] ==> acts[k] != Clear(j))
         && j < |h[read[j]]| && !h[read[j]][j].tag
  }

  lemma {:induction false} SameWidth(h: seq<seq<Counter>>, acts: seq<Access>, k: nat)
    requires History(h, acts) && k < |h|
    ensures |h[k]| == |h[0]|
  {
    if k > 0 {
      SameWidth(h, acts, k - 1);
      assert AccessStep(h[k - 1], h[k - 1 + 1], acts[k - 1]);
    }
  }

  /** A shard whose tag is not cleared between `t` and `r`, and which is untagged at `r`, only grew. */
  lemma {:induction false} ShardGrows(h: seq<seq<Counter>>, acts: seq<Access>, j: nat, t: nat, r: nat)
    requires History(h, acts) && t <= r < |h| && j < |h[0]|
    requires forall k :: t <= k < r ==> acts[k] != Clear(j)
    ensures |h[t]| == |h[r]| == |h[0]|
    ensures !h[r][j].tag ==> !h[t][j].tag && h[t][j].n <= h[r][j].n
    ensures !h[r][j].tag && h[t][j].n == h[r][j].n ==> forall k :: t <= k < r ==> acts[k] != Inc(j) && acts[k] != Dec(j)
    decreases r - t
  {
    SameWidth(h, acts, t);
    SameWidth(h, acts, r);
    if t < r {
      ShardGrows(h, acts, j, t, r - 1);
      assert AccessStep(h[r - 1], h[r - 1 + 1], acts[r - 1]);
    }
  }

  /** What the second scan adds up. */
  function Readings(h: seq<seq<Counter>>, read: seq<nat>): seq<Counter>
    requires forall j :: 0 <= j < |read| ==> read[j] < |h| && j < |h[read[j]]|
  {
    seq(|read|, j requires 0 <= j < |read| => h[read[j]][j])
  }

  /**
   For any moment `t` after the first scan and before the second, the untagged sum of the second
   scan is at least the true total at `t`. If it equals that total, no handle was acquired or
   dropped between `t` and the reading of the shard it landed on.
   */
  lemma SecondScanBoundsTotal(h: seq<seq<Counter>>, acts: seq<Access>, clear: seq<nat>, read: seq<nat>, t: nat)
    requires TwoScans(h, acts, clear, read) && t < |h|
    requires forall j :: 0 <= j < |read| ==> clear[j] < t <= read[j]
    ensures Sum(h[t]) <= Sum(Readings(h, read))
    ensures Sum(h[t]) == Sum(Readings(h, read)) ==>
      forall j, k :: 0 <= j < |read| && t <= k < read[j] ==> acts[k] != Inc(j) && acts[k] != Dec(j)
  {
    SameWidth(h, acts, t);
    var seen := Readings(h, read);
    forall j | 0 <= j < |read| ensures h[t][j].n <= seen[j].n && (h[t][j].n == seen[j].n ==>
      forall k :: t <= k < read[j] ==> acts[k] != Inc(j) && acts[k] != Dec(j))
    {
      ShardGrows(h, acts, j, t, read[j]);
    }
    SumToMonotone(h[t], seen, |seen|);
  }

  /**
   A second scan that adds up to zero means that nobody owned the object at any moment between the
   scans, given that the true total is never negative.
   */
  lemma ZeroMeansUnowned(h: seq<seq<Counter>>, acts: seq<Access>, clear: seq<nat>, read: seq<nat>, t: nat)
    requires TwoScans(h, acts, clear, read) && t < |h|
    requires forall j :: 0 <= j < |read| ==> clear[j] < t <= read[j]
    requires forall k :: 0 <= k < |h| ==> Sum(h[k]) >= 0
    ensures Sum(Readings(h, read)) >= 0
    ensures Sum(Readings(h, read)) == 0 ==> Sum(h[t]) == 0
  {
    SecondScanBoundsTotal(h, acts, clear, read, t);
  }

  /** A scan without tags: shard `j` is read at time `read[j]`. */
  ghost predicate MisledScan(h: seq<seq<Counter>>, acts: seq<Access>) {
    && History(h, acts) && |h| == 3 && |h[0]| == 2 && |h[2]| == 2
    && (forall k :: 0 <= k < |h| ==> Sum(h[k]) >= 1)
    && h[0][0].n + h[2][1].n == 0
  }

  /** One scan is not enough: reading shard 0 first and shard 1 last can add up to zero although a handle always exists. */
  lemma SingleScanCanMiss()
    ensures exists h, acts :: MisledScan(h, acts)
  {
    var zero, one := Counter(0, false), Counter(1, false);
    var h := [[zero, one], [one, one], [one, Counter(0, true)]];
    var acts := [Inc(0), Dec(1)];
    forall k | 0 <= k < 3 ensures Sum(h[k]) >= 1 {
      assert SumTo(h[k], 1) == SumTo(h[k], 0) + h[k][0].n;
      assert SumTo(h[k], 2) == SumTo(h[k], 1) + h[k][1].n;
    }
    assert MisledScan(h, acts);
  }
}
