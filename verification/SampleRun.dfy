/**
 Concrete runs of the step system with one object: it is freed, also beside any number of threads
 with hazard records, and it is left behind dead where deep collection does not free it.
 */
module SampleRun {
  import opened Options
  import opened Counters
  import opened Signals
  import opened Heap
  import opened Protocol
  import Calls
  import PassAlone
  import DeepCollection

  const Held := multiset{InThread(0)}

  /** The object `x` is all there is. */
  function S(x: Obj, pc: CollectorPc, visited: set<ObjId>, y: History): State {
    State(Heap(|x.ctr|, map[0 := x], map[]), [], Collector(pc, {}, 0, visited), map[], y)
  }

  const NoHistory := History(map[], {}, {}, map[])

  lemma Extend(s: State, a: Action, s': State)
    requires Reachable(s) && Enabled(s, a) && s' == Do(s, a)
    ensures Reachable(s')
  {
    Calls.ReachableDo(s, a);
  }

  // ----- handles

  lemma Birth(shards: nat, shard: nat)
    requires shard < shards
    ensures Reachable(S(Obj(7, FreshCounters(shards, shard), Held, multiset{}, None, None, Unsubmitted), Resting, {}, NoHistory))
  {
    var s0 := State(Heap(shards, map[], map[]), [], Collector(Resting, {}, 0, {}), map[], NoHistory);
    assert IsRun([s0]);
    Extend(s0, New(0, 0, 7, shard),
           S(Obj(7, FreshCounters(shards, shard), Held, multiset{}, None, None, Unsubmitted), Resting, {}, NoHistory));
  }

  lemma SetsLife(x: Obj, a: Action, life: Life)
    requires if a == Submit(0) then x.life.Unsubmitted? && life.Pending?
             else a == Take(0) && x.life.Pending? && life.DefaultState?
    requires Reachable(S(x, Resting, {}, NoHistory))
    ensures Reachable(S(x.(life := life), Resting, {}, NoHistory))
  {
    Extend(S(x, Resting, {}, NoHistory), a, S(x.(life := life), Resting, {}, NoHistory));
  }

  /** The object is tracked, its one handle counted on `shard`. */
  lemma Tracked(shards: nat, shard: nat)
    requires shard < shards
    ensures Reachable(S(Obj(7, FreshCounters(shards, shard), Held, multiset{}, None, None, DefaultState), Resting, {}, NoHistory))
  {
    Birth(shards, shard);
    var x := Obj(7, FreshCounters(shards, shard), Held, multiset{}, None, None, Unsubmitted);
    SetsLife(x, Submit(0), Pending);
    SetsLife(x.(life := Pending), Take(0), DefaultState);
  }

  lemma Clones(x: Obj, shard: nat, pc: CollectorPc, visited: set<ObjId>, y: History)
    requires Reachable(S(x, pc, visited, y)) && x.owners != multiset{} && shard < |x.ctr|
    ensures Reachable(S(x.(ctr := x.ctr[shard := Increment(x.ctr[shard])], owners := x.owners + multiset{InThread(0)}),
                        pc, visited, y.(acquired := y.acquired + {0})))
  {
    Extend(S(x, pc, visited, y), Clone(0, 0, shard),
           S(x.(ctr := x.ctr[shard := Increment(x.ctr[shard])], owners := x.owners + multiset{InThread(0)}),
             pc, visited, y.(acquired := y.acquired + {0})));
  }

  lemma Drops(x: Obj, t: nat, shard: nat, pc: CollectorPc, visited: set<ObjId>, y: History)
    requires Reachable(S(x, pc, visited, y)) && InThread(t) in x.owners && InThread(t) !in x.owed && shard < |x.ctr|
    ensures Reachable(S(x.(ctr := x.ctr[shard := DecrementAndTag(x.ctr[shard])], owners := x.owners - multiset{InThread(t)}),
                        pc, visited, y))
  {
    Extend(S(x, pc, visited, y), Drop(0, InThread(t), shard),
           S(x.(ctr := x.ctr[shard := DecrementAndTag(x.ctr[shard])], owners := x.owners - multiset{InThread(t)}),
             pc, visited, y));
  }

  // ----- the collector

  lemma Fences(x: Obj, visited: set<ObjId>, y: History)
    requires Reachable(S(x, Resting, visited, y))
    ensures Reachable(S(x, Scanning(0, 0), {}, y.(fence := map[0 := x], acquired := {})))
  {
    assert ThreadsAfter(S(x, Resting, visited, y), HeavyFence) == [];
    Extend(S(x, Resting, visited, y), HeavyFence, S(x, Scanning(0, 0), {}, y.(fence := map[0 := x], acquired := {})));
  }

  lemma Scans(x: Obj, y: History)
    requires Reachable(S(x, Scanning(0, 0), {}, y))
    ensures Reachable(S(x, Choosing, {}, y))
  {
    Extend(S(x, Scanning(0, 0), {}, y), Collect, S(x, Choosing, {}, y));
  }

  lemma Visits(x: Obj, y: History)
    requires Reachable(S(x, Choosing, {}, y)) && (x.life.DefaultState? || x.life.RequiresReChecking?)
    ensures Reachable(S(x, if x.life.DefaultState? then PreSum(0, 0, 0) else ReSum(0, 0, 0), {}, y))
  {
    Extend(S(x, Choosing, {}, y), Visit(0),
           S(x, if x.life.DefaultState? then PreSum(0, 0, 0) else ReSum(0, 0, 0), {}, y));
  }

  /** A pass begins: a heavy fence, an empty traversal, and the update of the object. */
  lemma BeginsPass(x: Obj, visited: set<ObjId>, y: History)
    requires Reachable(S(x, Resting, visited, y)) && (x.life.DefaultState? || x.life.RequiresReChecking?)
    ensures Reachable(S(x, if x.life.DefaultState? then PreSum(0, 0, 0) else ReSum(0, 0, 0), {},
                        y.(fence := map[0 := x], acquired := {})))
  {
    Fences(x, visited, y);
    Scans(x, y.(fence := map[0 := x], acquired := {}));
    Visits(x, y.(fence := map[0 := x], acquired := {}));
  }

  lemma PreReads(x: Obj, k: nat, acc: int, y: History)
    requires Reachable(S(x, PreSum(0, k, acc), {}, y)) && k < |x.ctr|
    ensures Reachable(S(x, PreSum(0, k + 1, acc + x.ctr[k].n), {}, y))
  {
    Extend(S(x, PreSum(0, k, acc), {}, y), Collect, S(x, PreSum(0, k + 1, acc + x.ctr[k].n), {}, y));
  }

  lemma PreEnds(x: Obj, y: History)
    requires Reachable(S(x, PreSum(0, |x.ctr|, 0), {}, y))
    ensures Reachable(S(x, ClearSum(0, 0, 0), {0}, y))
  {
    assert {} + {0} == {0 as ObjId};
    Extend(S(x, PreSum(0, |x.ctr|, 0), {}, y), Collect, S(x, ClearSum(0, 0, 0), {0}, y));
  }

  lemma Clears(x: Obj, k: nat, acc: int, y: History)
    requires Reachable(S(x, ClearSum(0, k, acc), {0}, y)) && k < |x.ctr|
    ensures Reachable(S(x.(ctr := x.ctr[k := ClearTag(x.ctr[k])]), ClearSum(0, k + 1, acc + x.ctr[k].n), {0},
                        y.(seen := y.seen[0 := SeenBefore(y, 0, k) + [x.ctr[k].n]])))
  {
    Extend(S(x, ClearSum(0, k, acc), {0}, y), Collect,
           S(x.(ctr := x.ctr[k := ClearTag(x.ctr[k])]), ClearSum(0, k + 1, acc + x.ctr[k].n), {0},
             y.(seen := y.seen[0 := SeenBefore(y, 0, k) + [x.ctr[k].n]])));
  }

  lemma ClearEnds(x: Obj, y: History)
    requires Reachable(S(x, ClearSum(0, |x.ctr|, 0), {0}, y)) && x.life.DefaultState?
    ensures Reachable(S(x.(life := RequiresReChecking), Choosing, {0}, y))
  {
    assert {0} + {0} == {0 as ObjId};
    Extend(S(x, ClearSum(0, |x.ctr|, 0), {0}, y), Collect, S(x.(life := RequiresReChecking), Choosing, {0}, y));
  }

  lemma StartsFreeing(x: Obj, y: History)
    requires Reachable(S(x, Choosing, {0}, y))
    ensures Reachable(S(x, Freeing, {0}, y))
  {
    Extend(S(x, Choosing, {0}, y), StartFreeing, S(x, Freeing, {0}, y));
  }

  lemma EndsPass(x: Obj, y: History)
    requires Reachable(S(x, Choosing, {0}, y)) && !x.life.ReadyToFree?
    ensures Reachable(S(x, Resting, {0}, y))
  {
    StartsFreeing(x, y);
    Extend(S(x, Freeing, {0}, y), EndPass, S(x, Resting, {0}, y));
  }

  lemma ReReads(x: Obj, y: History)
    requires Reachable(S(x, ReSum(0, 0, 0), {}, y)) && x.ctr == [Zero]
    ensures Reachable(S(x, ReSum(0, 1, 0), {}, y))
  {
    Extend(S(x, ReSum(0, 0, 0), {}, y), Collect, S(x, ReSum(0, 1, 0), {}, y));
  }

  lemma ReEnds(x: Obj, y: History)
    requires Reachable(S(x, ReSum(0, 1, 0), {}, y)) && x.ctr == [Zero]
    ensures Reachable(S(x, ClearingWeak(0), {}, y))
  {
    Extend(S(x, ReSum(0, 1, 0), {}, y), Collect, S(x, ClearingWeak(0), {}, y));
  }

  function Judged(x: Obj, y: History): History {
    if 0 in y.fence && y.fence[0].owed != multiset{} then y.(risky := y.risky + {0}) else y
  }

  lemma Judges(x: Obj, y: History)
    requires Reachable(S(x, ClearingWeak(0), {}, y)) && x.weak.None? && !x.life.Freed?
    ensures Reachable(S(x.(life := ReadyToFree), Choosing, {0}, Judged(x, y)))
  {
    assert {} + {0} == {0 as ObjId};
    Extend(S(x, ClearingWeak(0), {}, y), Collect, S(x.(life := ReadyToFree), Choosing, {0}, Judged(x, y)));
  }

  lemma Frees(x: Obj, y: History)
    requires Reachable(S(x, Freeing, {0}, y)) && x.life.ReadyToFree?
    ensures Reachable(S(x.(life := Freed), Freeing, {0}, y))
  {
    Extend(S(x, Freeing, {0}, y), Free(0), S(x.(life := Freed), Freeing, {0}, y));
  }

  // ----- two passes over an object whose one shard adds up to zero

  /** The first pass clears the tag. */
  lemma FirstPass(x: Obj, y: History) returns (y': History)
    requires Reachable(S(x, Resting, {}, y)) && x.ctr == [Counter(0, true)] && x.life.DefaultState?
    ensures Reachable(S(x.(ctr := [Zero], life := RequiresReChecking), Resting, {0}, y')) && y'.risky == y.risky
  {
    BeginsPass(x, {}, y);
    y' := y.(fence := map[0 := x], acquired := {});
    PreReads(x, 0, 0, y');
    PreEnds(x, y');
    Clears(x, 0, 0, y');
    y' := y'.(seen := y'.seen[0 := SeenBefore(y', 0, 0) + [0]]);
    assert x.ctr[0 := ClearTag(x.ctr[0])] == [Zero];
    ClearEnds(x.(ctr := [Zero]), y');
    EndsPass(x.(ctr := [Zero], life := RequiresReChecking), y');
  }

  /** The second pass frees it. */
  lemma SecondPass(x: Obj, y: History) returns (y': History)
    requires Reachable(S(x, Resting, {0}, y)) && x.ctr == [Zero] && x.life.RequiresReChecking? && x.weak.None?
    ensures Reachable(S(x.(life := Freed), Freeing, {0}, y'))
    ensures y'.risky == y.risky + if x.owed != multiset{} then {0} else {}
  {
    BeginsPass(x, {0}, y);
    y' := y.(fence := map[0 := x], acquired := {});
    ReReads(x, y');
    ReEnds(x, y');
    Judges(x, y');
    y' := Judged(x, y');
    StartsFreeing(x.(life := ReadyToFree), y');
    Frees(x.(life := ReadyToFree), y');
  }

  /** The object with one shard, tracked and owned by thread 0. */
  lemma Single() returns (x: Obj)
    ensures x == Obj(7, [Counter(1, false)], Held, multiset{}, None, None, DefaultState)
    ensures Reachable(S(x, Resting, {}, NoHistory))
  {
    assert FreshCounters(1, 0) == [Counter(1, false)];
    x := Obj(7, [Counter(1, false)], Held, multiset{}, None, None, DefaultState);
    Tracked(1, 0);
  }

  /** Some run frees an object. */
  lemma SomethingIsFreed()
    ensures exists s, o :: Reachable(s) && o in s.heap.objs && s.heap.objs[o].life.Freed? && o !in s.history.risky
  {
    var x := Single();
    Drops(x, 0, 0, Resting, {}, NoHistory);
    assert x.ctr[0 := DecrementAndTag(x.ctr[0])] == [Counter(0, true)] && x.owners - multiset{InThread(0)} == multiset{};
    var x1 := x.(ctr := [Counter(0, true)], owners := multiset{});
    var y := FirstPass(x1, NoHistory);
    var x2 := x1.(ctr := [Zero], life := RequiresReChecking);
    y := SecondPass(x2, y);
    assert S(x2.(life := Freed), Freeing, {0}, y).heap.objs[0].life.Freed?;
  }

  // ----- beside other threads

  function Idlers(n: nat): seq<Thread> { seq(n, _ => Thread(Silent, Idle, map[])) }

  lemma {:induction false} Registers(s: State, n: nat)
    requires Reachable(s) && s.thr == []
    ensures Reachable(s.(thr := Idlers(n)))
  {
    if n == 0 {
      assert Idlers(0) == s.thr;
    } else {
      Registers(s, n - 1);
      assert Idlers(n - 1) + [Thread(Silent, Idle, map[])] == Idlers(n);
      Extend(s.(thr := Idlers(n - 1)), Register, s.(thr := Idlers(n)));
    }
  }

  /** An object is freed while `n` threads have hazard records, which the traversals go through. */
  lemma FreedBesideThreads(n: nat)
    ensures exists s, o :: Reachable(s) && |s.thr| == n && o in s.heap.objs && s.heap.objs[o].life.Freed?
  {
    var x := Single();
    Drops(x, 0, 0, Resting, {}, NoHistory);
    assert x.ctr[0 := DecrementAndTag(x.ctr[0])] == [Counter(0, true)] && x.owners - multiset{InThread(0)} == multiset{};
    var x1 := x.(ctr := [Counter(0, true)], owners := multiset{});
    var s := S(x1, Resting, {}, NoHistory);
    Registers(s, n);
    var s1 := s.(thr := Idlers(n));
    assert !PassAlone.Announced(s1, 7) by {
      assert Drain(Silent) == Silent;
    }
    var s' := PassAlone.DeadIsFreed(s1, 0);
    PassAlone.AloneReachable(s1, s');
    PassAlone.AloneKeepsThreads(s1, s');
  }

  // ----- a dead object left behind by deep collection

  function Moved(ctr: seq<Counter>, to: nat, from: nat): seq<Counter>
    requires to < |ctr| && from < |ctr|
  {
    var c := ctr[to := Increment(ctr[to])];
    c[from := DecrementAndTag(c[from])]
  }

  /** The handle's count moves to another shard: the owner clones it there and drops it here. */
  lemma Moves(x: Obj, to: nat, from: nat, pc: CollectorPc, visited: set<ObjId>, y: History)
    requires Reachable(S(x, pc, visited, y)) && x.owners == Held && x.owed == multiset{} && to < |x.ctr| && from < |x.ctr|
    ensures Reachable(S(x.(ctr := Moved(x.ctr, to, from)), pc, visited, y.(acquired := y.acquired + {0})))
  {
    Clones(x, to, pc, visited, y);
    var x1 := x.(ctr := x.ctr[to := Increment(x.ctr[to])], owners := x.owners + multiset{InThread(0)});
    Drops(x1, 0, from, pc, visited, y.(acquired := y.acquired + {0}));
    assert x1.owners - multiset{InThread(0)} == Held;
  }

  function Pair(m: int, s: bool, n: int, t: bool): seq<Counter> { [Counter(m, s), Counter(n, t)] }

  /** Both scans look at each shard when the handle is counted on the other one. */
  lemma Misled(x: Obj, y: History) returns (y': History)
    requires Reachable(S(x, PreSum(0, 0, 0), {}, y)) && x.life.DefaultState?
    requires x.owners == Held && x.owed == multiset{} && x.ctr == Pair(0, false, 1, false)
    ensures Reachable(S(x.(ctr := Pair(1, false, 0, false), life := RequiresReChecking), Choosing, {0}, y'))
  {
    PreReads(x, 0, 0, y);
    Moves(x, 0, 1, PreSum(0, 1, 0), {}, y);
    y' := y.(acquired := y.acquired + {0});
    assert Moved(x.ctr, 0, 1) == Pair(1, false, 0, true);
    var x1 := x.(ctr := Pair(1, false, 0, true));
    PreReads(x1, 1, 0, y');
    PreEnds(x1, y');
    y' := MisledAgain(x1, y');
  }

  lemma MisledAgain(x: Obj, y: History) returns (y': History)
    requires Reachable(S(x, ClearSum(0, 0, 0), {0}, y)) && x.life.DefaultState?
    requires x.owners == Held && x.owed == multiset{} && x.ctr == Pair(1, false, 0, true)
    ensures Reachable(S(x.(ctr := Pair(1, false, 0, false), life := RequiresReChecking), Choosing, {0}, y'))
  {
    Moves(x, 1, 0, ClearSum(0, 0, 0), {0}, y);
    y' := y.(acquired := y.acquired + {0});
    assert Moved(x.ctr, 1, 0) == Pair(0, true, 1, true);
    var x1 := x.(ctr := Pair(0, true, 1, true));
    Clears(x1, 0, 0, y');
    y' := y'.(seen := y'.seen[0 := SeenBefore(y', 0, 0) + [0]]);
    assert x1.ctr[0 := ClearTag(x1.ctr[0])] == Pair(0, false, 1, true);
    y' := MisledLast(x1.(ctr := Pair(0, false, 1, true)), y');
  }

  lemma MisledLast(x: Obj, y: History) returns (y': History)
    requires Reachable(S(x, ClearSum(0, 1, 0), {0}, y)) && x.life.DefaultState?
    requires x.owners == Held && x.owed == multiset{} && x.ctr == Pair(0, false, 1, true)
    ensures Reachable(S(x.(ctr := Pair(1, false, 0, false), life := RequiresReChecking), Choosing, {0}, y'))
  {
    Moves(x, 0, 1, ClearSum(0, 1, 0), {0}, y);
    y' := y.(acquired := y.acquired + {0});
    assert Moved(x.ctr, 0, 1) == Pair(1, false, 0, true);
    var x1 := x.(ctr := Pair(1, false, 0, true));
    Clears(x1, 1, 0, y');
    y' := y'.(seen := y'.seen[0 := SeenBefore(y', 0, 1) + [0]]);
    assert x1.ctr[1 := ClearTag(x1.ctr[1])] == Pair(1, false, 0, false);
    ClearEnds(x1.(ctr := Pair(1, false, 0, false)), y');
  }

  /**
   Between two passes there can be a dead object in RequiresReChecking with a tag left: exactly
   what a deep update does not free.
   */
  lemma SomethingIsLeftBehind()
    ensures exists s, o :: Reachable(s) && s.col.pc.Resting? && DeepCollection.LeftBehind(s.heap, o)
  {
    assert FreshCounters(2, 1) == Pair(0, false, 1, false);
    var x := Obj(7, Pair(0, false, 1, false), Held, multiset{}, None, None, DefaultState);
    Tracked(2, 1);
    BeginsPass(x, {}, NoHistory);
    var y := Misled(x, NoHistory.(fence := map[0 := x], acquired := {}));
    var x1 := x.(ctr := Pair(1, false, 0, false), life := RequiresReChecking);
    EndsPass(x1, y);
    Drops(x1, 0, 0, Resting, {0}, y);
    var x2 := x1.(ctr := x1.ctr[0 := DecrementAndTag(x1.ctr[0])], owners := x1.owners - multiset{InThread(0)});
    assert x2.ctr[0].tag && x2.owners == multiset{};
    assert DeepCollection.LeftBehind(S(x2, Resting, {0}, y).heap, 0);
  }
}
