/**
 What `compare_and_set` does to free safety. It installs the pointer first and adds the count for
 it afterwards. If a heavy fence comes in between, the collector can take the sum for the number of
 handles although it is smaller, and free an object that is owned; otherwise it cannot.
 */
module CompareAndSet {
  import opened Options
  import opened Counters
  import opened Heap
  import opened HeapEffects
  import opened Protocol
  import opened FenceInvariant
  import opened CollectorInvariant
  import opened FreeSafety
  import opened Calls
  import opened SampleRun

  // ----- the condition

  /**
   The collector judges that nobody owned an object at the fence of its pass. This is right exactly
   if no `compare_and_set` owed a count for it then; and then the object is dead, once no weak
   reference is left to cut.
   */
  lemma JudgedRightly(s: State, o: ObjId)
    requires Reachable(s) && s.col.pc == ClearingWeak(o)
    ensures o in s.history.fence
    ensures s.history.fence[o].owners == multiset{} <==> s.history.fence[o].owed == multiset{}
    ensures s.history.fence[o].owed == multiset{} && !HasBackRef(s.heap.objs, o) ==> Dead(s, o)
  {
    ReachableInv(s);
    assert FenceOk(s, o);
    if s.history.fence[o].owed == multiset{} && !HasBackRef(s.heap.objs, o) {
      ReadyIsDead(s, o);
    }
  }

  /** Whenever the collector issues its heavy fence, nothing is owed. */
  ghost predicate Careful(run: seq<State>) {
    forall k :: 0 <= k < |run| ==> NothingOwed(run[k].history.fence)
  }

  lemma CarefulStep(s: State, a: Action)
    requires Enabled(s, a) && NothingOwed(s.history.fence)
    ensures HistoryAfter(s, a).risky == s.history.risky
  {
  }

  /** In such a run every object is freed safely: the exception in the theorems of `FreeSafety` is void. */
  lemma {:induction false} CarefulIsSafe(run: seq<State>, k: nat)
    requires IsRun(run) && Careful(run) && k < |run|
    ensures run[k].history.risky == {}
  {
    if k > 0 {
      CarefulIsSafe(run, k - 1);
      var a := StepOf(run, k);
      CarefulStep(run[k - 1], a);
    }
  }

  ghost predicate PlainStep(s: State, s': State) {
    exists a :: Enabled(s, a) && !HeapOpOf(s, a).Install? && s' == Do(s, a)
  }

  /** A run that never uses `compare_and_set`. */
  ghost predicate WithoutIt(run: seq<State>) {
    forall k :: 0 <= k < |run| - 1 ==> PlainStep(run[k], run[k + 1])
  }

  lemma PlainStepOwesNothing(s: State, s': State)
    requires PlainStep(s, s') && NothingOwed(s.heap.objs) && NothingOwed(s.history.fence)
    ensures NothingOwed(s'.heap.objs) && NothingOwed(s'.history.fence)
  {
    var a :| Enabled(s, a) && !HeapOpOf(s, a).Install? && s' == Do(s, a);
    OwedOnlyByInstall(s.heap, HeapOpOf(s, a));
  }

  /** It is careful, whatever else it does. */
  lemma {:induction false} WithoutItIsCareful(run: seq<State>, k: nat)
    requires IsRun(run) && WithoutIt(run) && k < |run|
    ensures NothingOwed(run[k].heap.objs) && NothingOwed(run[k].history.fence)
  {
    if k > 0 {
      WithoutItIsCareful(run, k - 1);
      assert PlainStep(run[k - 1], run[k - 1 + 1]);
      PlainStepOwesNothing(run[k - 1], run[k]);
    }
  }

  // ----- what is owed, over a run

  /** A run with the actions that it takes. */
  ghost predicate IsSchedule(run: seq<State>, acts: seq<Action>) {
    |run| == |acts| + 1 && Init(run[0]) && IsTrace(run, run[0], acts, run[|acts|])
  }

  /** How many of the first `k` actions are first halves that borrow the handle at `from`, less the second halves. */
  function Pending(acts: seq<Action>, k: nat, o: ObjId, from: Place): int
    requires k <= |acts|
  {
    if k == 0 then 0
    else Pending(acts, k - 1, o, from) + match acts[k - 1]
      case Install(_, _, p, place) => if p == o && place == from then 1 else 0
      case Compensate(p, place, _) => if p == o && place == from then -1 else 0
      case _ => 0
  }

  lemma OwedStep(s: State, a: Action, o: ObjId, from: Place)
    requires HeapInv(s.heap) && Enabled(s, a)
    requires o !in s.heap.objs ==> !(a.Install? && a.o == o) && !(a.Compensate? && a.o == o)
    ensures o in s.heap.objs ==> o in Do(s, a).heap.objs
    ensures o in Do(s, a).heap.objs ==>
      Do(s, a).heap.objs[o].owed[from] == (if o in s.heap.objs then s.heap.objs[o].owed[from] else 0)
        + (if a.Install? && a.o == o && a.from == from then 1 else 0)
        - (if a.Compensate? && a.o == o && a.from == from then 1 else 0)
  {
    var op := HeapOpOf(s, a);
    if o in s.heap.objs {
      OwedAfter(s.heap, op, o, from);
      ObjectEvolves(s.heap, op, o);
    } else if o in Apply(s.heap, op).objs {
      NewOwesNothing(s.heap, op, o);
    }
    OnlyTheseOwe(s, a);
  }

  lemma OnlyTheseOwe(s: State, a: Action)
    requires Enabled(s, a)
    ensures HeapOpOf(s, a).Install? <==> a.Install?
    ensures HeapOpOf(s, a).Compensate? <==> a.Compensate?
    ensures a.Install? ==> HeapOpOf(s, a) == HeapOp.Install(a.t, a.c, a.o, a.from)
    ensures a.Compensate? ==> HeapOpOf(s, a) == HeapOp.Compensate(a.o, a.from, a.shard)
  {
  }

  lemma OwedAfter(h: Heap, op: HeapOp, o: ObjId, from: Place)
    requires HeapInv(h) && Ok(h, op) && o in h.objs
    ensures o in Apply(h, op).objs
    ensures Apply(h, op).objs[o].owed[from] == h.objs[o].owed[from]
      + (if op.Install? && op.o == o && op.from == from then 1 else 0)
      - (if op.Compensate? && op.o == o && op.from == from then 1 else 0)
  {
    if op.Exchange? {
      ExchangeEvolves(h, op.t, op.c, op.new_, o);
    } else if op.Install? {
      InstallEffectAt(h, op.t, op.c, op.o, op.from, o);
    }
  }

  lemma NewOwesNothing(h: Heap, op: HeapOp, o: ObjId)
    requires Ok(h, op) && o !in h.objs && o in Apply(h, op).objs
    ensures Apply(h, op).objs[o].owed == multiset{}
  {
  }

  lemma PendingUnknown(s: State, a: Action, o: ObjId)
    requires Enabled(s, a) && o !in s.heap.objs
    ensures !(a.Install? && a.o == o) && !(a.Compensate? && a.o == o)
  {
  }

  lemma ScheduleIsRun(run: seq<State>, acts: seq<Action>)
    requires IsSchedule(run, acts)
    ensures IsRun(run)
  {
    forall k | 0 <= k < |run| - 1 ensures NextAt(run, k) {
      assert StepAt(run, acts, k);
    }
  }

  /** What is owed is exactly what the calls that have not finished owe. */
  lemma {:induction false} OwedIsPending(run: seq<State>, acts: seq<Action>, k: nat, o: ObjId, from: Place)
    requires IsSchedule(run, acts) && k < |run|
    ensures Pending(acts, k, o, from) == if o in run[k].heap.objs then run[k].heap.objs[o].owed[from] else 0
  {
    if k > 0 {
      OwedIsPending(run, acts, k - 1, o, from);
      ScheduleIsRun(run, acts);
      RunInv(run, k - 1);
      assert StepAt(run, acts, k - 1);
      if o !in run[k - 1].heap.objs {
        PendingUnknown(run[k - 1], acts[k - 1], o);
      }
      OwedStep(run[k - 1], acts[k - 1], o, from);
    }
  }

  /** Once every call on an object has finished, nothing is owed for it, and its shards add up to its handles. */
  lemma FinishedOwesNothing(run: seq<State>, acts: seq<Action>, k: nat, o: ObjId)
    requires IsSchedule(run, acts) && k < |run| && o in run[k].heap.objs
    requires forall from :: Pending(acts, k, o, from) == 0
    ensures run[k].heap.objs[o].owed == multiset{} && Sum(run[k].heap.objs[o].ctr) == |run[k].heap.objs[o].owners|
  {
    forall from ensures run[k].heap.objs[o].owed[from] == 0 {
      OwedIsPending(run, acts, k, o, from);
    }
    ScheduleIsRun(run, acts);
    RunInv(run, k);
    assert CountOk(run[k].heap, o);
  }

  // ----- the failure

  /** Thread 0 installs the object in a null cell and stalls; thread 1 swaps it out and drops it. */
  lemma Stalls(x: Obj)
    requires Reachable(S(x, Resting, {}, NoHistory)) && x.owners == Held && x.owed == multiset{}
    ensures Reachable(S(x.(owners := Held + multiset{InThread(1)}, owed := Held), Resting, {}, NoHistory))
  {
    var s := S(x, Resting, {}, NoHistory);
    var x1 := x.(owners := Held + multiset{InCell(0)}, owed := Held);
    var s1 := s.(heap := s.heap.(objs := map[0 := x1], cells := map[0 := 0]));
    assert x.owed + multiset{InThread(0)} == Held && x.owners + multiset{InCell(0)} == x1.owners;
    assert s.heap.objs[0 := x1] == map[0 := x1] && s.heap.cells[0 := 0] == map[0 := 0];
    Extend(s, Action.Install(0, 0, 0, InThread(0)), s1);
    SwapsOut(x1, s1);
  }

  lemma SwapsOut(x: Obj, s: State)
    requires x.owners == Held + multiset{InCell(0)} && Reachable(s)
    requires s == S(x, Resting, {}, NoHistory).(heap := Heap(|x.ctr|, map[0 := x], map[0 := 0]))
    ensures Reachable(S(x.(owners := Held + multiset{InThread(1)}), Resting, {}, NoHistory))
  {
    assert x.owners - multiset{InCell(0)} + multiset{InThread(1)} == Held + multiset{InThread(1)};
    assert map[0 := 0] - {0} == map[];
    Extend(s, Swap(1, 0, None), S(x.(owners := Held + multiset{InThread(1)}), Resting, {}, NoHistory));
  }

  /** Then the sum is zero, though thread 0 still owns the object. */
  lemma SumCanFallShort() returns (x: Obj)
    ensures x == Obj(7, [Counter(0, true)], Held, Held, None, None, DefaultState)
    ensures Reachable(S(x, Resting, {}, NoHistory)) && Sum(x.ctr) == 0
  {
    var x0 := Single();
    Stalls(x0);
    var x1 := x0.(owners := Held + multiset{InThread(1)}, owed := Held);
    Drops(x1, 1, 0, Resting, {}, NoHistory);
    assert x1.ctr[0 := DecrementAndTag(x1.ctr[0])] == [Counter(0, true)] && x1.owners - multiset{InThread(1)} == Held;
    x := x1.(ctr := [Counter(0, true)], owners := Held);
    ReachableInv(S(x, Resting, {}, NoHistory));
    assert CountOk(S(x, Resting, {}, NoHistory).heap, 0);
  }

  /**
   Free safety fails: two passes later the object is freed, while thread 0 owns it and is about to
   add the count it owes to the freed memory.
   */
  lemma FreedWhileOwned()
    ensures exists s, o, a :: Reachable(s) && o in s.heap.objs && s.heap.objs[o].life.Freed?
                           && Owned(s.heap, o) && Enabled(s, a) && o in Touched(s, a)
  {
    var x := SumCanFallShort();
    var y := FirstPass(x, NoHistory);
    var x1 := x.(ctr := [Zero], life := RequiresReChecking);
    y := SecondPass(x1, y);
    var s := S(x1.(life := Freed), Freeing, {0}, y);
    var a := Action.Compensate(0, InThread(0), 0);
    assert Enabled(s, a) && 0 in Touched(s, a);
    assert s.heap.objs[0].life.Freed? && Owned(s.heap, 0);
  }
}
