/**
 What the collector knows while it updates one object, and why an object that it declares
 ready to be freed is dead.
 */
module CollectorInvariant {
  import opened Counters
  import opened Signals
  import opened Heap
  import opened Protocol
  import opened ReaderInvariant
  import opened FenceInvariant
  import opened FencePreserved

  /**
   The re-check of `o` has added up `acc` over the first `k` shards: at least what they held at
   the fence. If `o` was abandoned at the fence and has been acquired since, then the sum
   already shows it or a shard still to be read will.
   */
  predicate ReSumOk(s: State, o: ObjId, k: nat, acc: int) {
    && o in s.heap.objs && o in s.history.fence && o !in s.col.visited
    && s.heap.objs[o].life.RequiresReChecking?
    && s.heap.objs[o].addr !in s.col.hazards
    && |s.heap.objs[o].ctr| == |s.history.fence[o].ctr|
    && k <= |s.history.fence[o].ctr|
    && SumTo(s.history.fence[o].ctr, k) <= acc
    && (Abandoned(s, o) ==>
          || o !in s.history.acquired
          || SumTo(s.history.fence[o].ctr, k) < acc
          || Disturbed(s.heap.objs[o], s.history.fence[o], k))
  }

  predicate ClearingOk(s: State, o: ObjId) {
    && o in s.heap.objs && o in s.history.fence && o !in s.col.visited
    && s.heap.objs[o].life.RequiresReChecking?
    && s.heap.objs[o].addr !in s.col.hazards
    && |s.history.fence[o].owners| <= |s.history.fence[o].owed|
    && (Abandoned(s, o) ==> o !in s.history.acquired)
  }

  predicate CollectorPcOk(s: State) {
    match s.col.pc
    case PreSum(o, k, _) => o in s.heap.objs && s.heap.objs[o].life.DefaultState? && k <= |s.heap.objs[o].ctr|
    case ClearSum(o, k, _) =>
      && o in s.heap.objs && s.heap.objs[o].life.DefaultState? && k <= |s.heap.objs[o].ctr|
      && o in s.col.visited
    case ReSum(o, k, acc) => ReSumOk(s, o, k, acc)
    case ClearingWeak(o) => ClearingOk(s, o)
    case _ => true
  }

  ghost predicate LifeOk(s: State, o: ObjId) {
    o in s.heap.objs ==>
      && (s.heap.objs[o].life.ReadyToFree? ==>
            o in s.col.visited && !s.col.pc.Resting? && !s.col.pc.Scanning?)
      && (s.heap.objs[o].life.RequiresReChecking? ==> o in s.history.fence || o in s.col.visited)
      && (s.heap.objs[o].life.ReadyToFree? || s.heap.objs[o].life.Freed? ==> Dead(s, o) || o in s.history.risky)
  }

  ghost predicate CollectorInv(s: State) {
    CollectorPcOk(s) && forall o: ObjId :: LifeOk(s, o)
  }

  // ----- the update of one object, while others act

  lemma LifeStays(s: State, a: Action, o: ObjId)
    requires Enabled(s, a) && o in s.heap.objs
    requires s.heap.objs[o].life.DefaultState? || s.heap.objs[o].life.RequiresReChecking?
    requires !a.Collect? && !a.Visit?
    ensures o in Do(s, a).heap.objs && Do(s, a).heap.objs[o].life == s.heap.objs[o].life
    ensures Do(s, a).heap.objs[o].addr == s.heap.objs[o].addr
    ensures |Do(s, a).heap.objs[o].ctr| == |s.heap.objs[o].ctr|
  {
    ObjectEvolves(s.heap, HeapOpOf(s, a), o);
  }

  /** After the traversal, a suspect not found in it stays unacquired. */
  lemma SuspectStays(s: State, a: Action, o: ObjId)
    requires HeapInv(s.heap) && FenceInv(s) && Enabled(s, a) && !a.HeavyFence?
    requires Suspect(s, o) && !s.col.pc.Scanning? && s.heap.objs[o].addr !in s.col.hazards
    ensures o !in HistoryAfter(s, a).acquired
  {
    SuspectIsDead(s, o);
    if HeapOpOf(s, a).Acquire? && HeapOpOf(s, a).o == o {
      AcquireNeedsAccess(s, a, o);
    }
  }

  /** While the collector is in the middle of an update, only its own steps move it. */
  lemma CollectorWaits(s: State, a: Action)
    requires Enabled(s, a) && !a.Collect? && (s.col.pc.ReSum? || s.col.pc.ClearingWeak?)
    ensures !a.Visit? && !a.HeavyFence? && CollectorAfter(s, a) == s.col
  {
  }

  lemma ReSumStays(s: State, a: Action, o: ObjId, k: nat, acc: int)
    requires HeapInv(s.heap) && ReaderInv(s) && FenceInv(s) && Marks(s) && Enabled(s, a)
    requires s.col.pc == ReSum(o, k, acc) && ReSumOk(s, o, k, acc) && !a.Collect?
    ensures ReSumOk(Do(s, a), o, k, acc) && Do(s, a).col == s.col
  {
    CollectorWaits(s, a);
    LifeStays(s, a, o);
    HistoryGrows(s, a);
    if Abandoned(s, o) {
      if o !in s.history.acquired {
        SuspectStays(s, a, o);
      } else if Disturbed(s.heap.objs[o], s.history.fence[o], k) {
        assert FenceOk(s, o);
        DisturbedStays(s, a, o, k);
      }
    }
  }

  lemma ClearingStays(s: State, a: Action, o: ObjId)
    requires HeapInv(s.heap) && ReaderInv(s) && FenceInv(s) && Marks(s) && Enabled(s, a)
    requires s.col.pc == ClearingWeak(o) && ClearingOk(s, o) && !a.Collect?
    ensures ClearingOk(Do(s, a), o) && Do(s, a).col == s.col
  {
    CollectorWaits(s, a);
    LifeStays(s, a, o);
    HistoryGrows(s, a);
    if Abandoned(s, o) {
      SuspectStays(s, a, o);
    }
  }

  lemma ScanStays(s: State, a: Action)
    requires Enabled(s, a) && !a.Collect? && !a.Visit? && CollectorPcOk(s)
    requires s.col.pc.PreSum? || s.col.pc.ClearSum?
    ensures CollectorPcOk(Do(s, a))
  {
    LifeStays(s, a, s.col.pc.o);
  }

  lemma OthersKeepPc(s: State, a: Action)
    requires HeapInv(s.heap) && ReaderInv(s) && FenceInv(s) && CollectorInv(s) && Enabled(s, a)
    requires !a.Collect? && !a.Visit?
    ensures CollectorPcOk(Do(s, a))
  {
    match s.col.pc
    case PreSum(_, _, _) => ScanStays(s, a);
    case ClearSum(_, _, _) => ScanStays(s, a);
    case ReSum(o, k, acc) => ReSumStays(s, a, o, k, acc);
    case ClearingWeak(o) => ClearingStays(s, a, o);
    case _ =>
  }

  // ----- the collector's own steps

  lemma VisitKeepsPc(s: State, o: ObjId)
    requires FenceInv(s) && CollectorInv(s) && Enabled(s, Visit(o))
    ensures CollectorPcOk(Do(s, Visit(o)))
  {
    assert LifeOk(s, o) && FenceOk(s, o) && UntouchedOk(s, o);
    var s' := Do(s, Visit(o));
  }

  /** Reading one more untagged shard. */
  lemma ReSumReads(s: State, o: ObjId, k: nat, acc: int)
    requires FenceInv(s) && ReSumOk(s, o, k, acc) && k < |s.history.fence[o].ctr| && !s.heap.objs[o].ctr[k].tag
    ensures ReSumOk(s, o, k + 1, acc + s.heap.objs[o].ctr[k].n)
  {
    assert UntouchedOk(s, o);
    assert ShardGrew(s.heap.objs[o], s.history.fence[o], k);
  }

  lemma ReSumEnds(s: State, o: ObjId, k: nat, acc: int)
    requires HeapInv(s.heap) && FenceInv(s) && ReSumOk(s, o, k, acc) && k == |s.history.fence[o].ctr|
    ensures |s.history.fence[o].owners| - |s.history.fence[o].owed| <= acc
    ensures acc == 0 ==> ClearingOk(s, o)
  {
    assert FenceOk(s, o);
  }

  lemma CollectKeepsPc(s: State)
    requires HeapInv(s.heap) && FenceInv(s) && CollectorInv(s) && Enabled(s, Collect)
    ensures CollectorPcOk(Do(s, Collect))
  {
    var s' := Do(s, Collect);
    match s.col.pc
    case ReSum(o, k, acc) =>
      if k < |s.heap.objs[o].ctr| {
        if !s.heap.objs[o].ctr[k].tag {
          ReSumReads(s, o, k, acc);
          assert s'.heap == s.heap && s'.history == s.history && s'.col.visited == s.col.visited;
        }
      } else if acc == 0 {
        ReSumEnds(s, o, k, acc);
        assert s'.heap == s.heap && s'.history == s.history && s'.col.visited == s.col.visited;
      }
    case _ =>
  }

  /**
   The decision: whoever passes the re-check with no weak reference left to cut is dead, if no
   count for it was owed at the fence.
   */
  lemma ReadyIsDead(s: State, o: ObjId)
    requires FenceInv(s)
    requires s.col.pc == ClearingWeak(o) && ClearingOk(s, o) && !HasBackRef(s.heap.objs, o)
    requires s.history.fence[o].owed == multiset{}
    ensures Dead(s, o)
  {
    assert FenceOk(s, o) && UntouchedOk(s, o);
    SuspectIsDead(s, o);
  }

  lemma CollectorSetsLife(s: State, a: Action, o: ObjId)
    requires HeapInv(s.heap) && ReaderInv(s) && FenceInv(s) && CollectorInv(s) && Enabled(s, a)
    requires o in s.heap.objs && HeapOpOf(s, a).SetLife? && HeapOpOf(s, a).o == o
    ensures var life, s' := HeapOpOf(s, a).life, Do(s, a);
      && (life.ReadyToFree? ==>
            o in s'.col.visited && s'.col.pc.Choosing? && (Dead(s, o) || o in HistoryAfter(s, a).risky))
      && (life.Freed? ==> Dead(s, o) || o in HistoryAfter(s, a).risky)
      && (life.RequiresReChecking? ==> o in s'.col.visited)
  {
    assert LifeOk(s, o);
    if HeapOpOf(s, a).life.ReadyToFree? && o !in HistoryAfter(s, a).risky {
      ReadyIsDead(s, o);
    }
  }

  lemma KeepsLife(s: State, a: Action, o: ObjId)
    requires HeapInv(s.heap) && ReaderInv(s) && FenceInv(s) && CollectorInv(s) && Enabled(s, a)
    ensures LifeOk(Do(s, a), o)
  {
    var s', op := Do(s, a), HeapOpOf(s, a);
    if o in s.heap.objs {
      assert LifeOk(s, o);
      ObjectEvolves(s.heap, op, o);
      if op.SetLife? && op.o == o {
        CollectorSetsLife(s, a, o);
      }
      if Dead(s, o) {
        DeadStays(s, a, o);
      }
      LifeMarksStay(s, a, o);
      RiskyStays(s, a);
    } else if o in s'.heap.objs {
      ObjectAppears(s.heap, op, o);
    }
  }

  lemma RiskyStays(s: State, a: Action)
    requires Enabled(s, a)
    ensures s.history.risky <= HistoryAfter(s, a).risky
  {
  }

  /** Ready objects exist only within a pass, after their update. */
  lemma ReadyMarksStay(s: State, a: Action, o: ObjId)
    requires Enabled(s, a) && o in s.heap.objs && LifeOk(s, o) && s.heap.objs[o].life.ReadyToFree?
    ensures !a.EndPass? && o in CollectorAfter(s, a).visited
    ensures !CollectorAfter(s, a).pc.Resting? && !CollectorAfter(s, a).pc.Scanning?
  {
  }

  lemma ReCheckMarksStay(s: State, a: Action, o: ObjId)
    requires Enabled(s, a) && o in s.heap.objs && LifeOk(s, o) && s.heap.objs[o].life.RequiresReChecking?
    ensures o in Do(s, a).history.fence || o in CollectorAfter(s, a).visited
  {
    if !a.HeavyFence? {
      VisitedGrows(s, a);
      HistoryGrows(s, a);
    }
  }

  lemma LifeMarksStay(s: State, a: Action, o: ObjId)
    requires Enabled(s, a) && o in s.heap.objs && LifeOk(s, o)
    ensures s.heap.objs[o].life.ReadyToFree? ==>
      && !a.EndPass? && o in CollectorAfter(s, a).visited
      && !CollectorAfter(s, a).pc.Resting? && !CollectorAfter(s, a).pc.Scanning?
    ensures s.heap.objs[o].life.RequiresReChecking? ==> o in Do(s, a).history.fence || o in CollectorAfter(s, a).visited
  {
    if s.heap.objs[o].life.ReadyToFree? {
      ReadyMarksStay(s, a, o);
    } else if s.heap.objs[o].life.RequiresReChecking? {
      ReCheckMarksStay(s, a, o);
    }
  }

  lemma KeepsCollectorInv(s: State, a: Action)
    requires HeapInv(s.heap) && ReaderInv(s) && FenceInv(s) && CollectorInv(s) && Enabled(s, a)
    ensures CollectorInv(Do(s, a))
  {
    if a.Collect? {
      CollectKeepsPc(s);
    } else if a.Visit? {
      VisitKeepsPc(s, a.o);
    } else {
      OthersKeepPc(s, a);
    }
    forall o: ObjId ensures LifeOk(Do(s, a), o) { KeepsLife(s, a, o); }
  }
}
