/** Every step keeps the fence invariant. */
module FencePreserved {
  import opened Options
  import opened Counters
  import opened Signals
  import opened Heap
  import opened Protocol
  import opened ReaderInvariant
  import opened FenceInvariant

  /** Untagging and cutting are the collector's, and mark the object they are about. */
  predicate Marks(s: State) {
    && (s.col.pc.ClearSum? ==> s.col.pc.o in s.col.visited)
    && s.col.limit <= |s.thr|
  }

  lemma UntagMarks(s: State, a: Action, o: ObjId)
    requires Enabled(s, a) && Marks(s)
    requires HeapOpOf(s, a).Untag? && HeapOpOf(s, a).o == o
    ensures o in s.col.visited && o in CollectorAfter(s, a).visited
  {
  }

  lemma CutMarks(s: State, a: Action, o: ObjId)
    requires Enabled(s, a) && WeakAgree(s.heap)
    requires HasBackRef(s.heap.objs, o) && HeapOpOf(s, a) == CutBackRef(s.heap.objs[o].weak.value)
    ensures o in CollectorAfter(s, a).visited
  {
    assert WeakRefOk(s.heap.objs, o);
    assert WeakRefOk(s.heap.objs, s.col.pc.o);
  }

  lemma VisitedGrows(s: State, a: Action)
    requires Enabled(s, a) && !a.HeavyFence?
    ensures s.col.visited <= CollectorAfter(s, a).visited
    ensures s.col.hazards <= CollectorAfter(s, a).hazards
    ensures Marks(s) ==> s.col.limit <= CollectorAfter(s, a).limit <= |s.thr|
  {
  }

  lemma HistoryGrows(s: State, a: Action)
    requires Enabled(s, a) && !a.HeavyFence?
    ensures HistoryAfter(s, a).fence == s.history.fence
    ensures s.history.acquired <= HistoryAfter(s, a).acquired
    ensures HeapOpOf(s, a).Acquire? ==> HeapOpOf(s, a).o in HistoryAfter(s, a).acquired
  {
  }

  lemma KeepsFenceOk(s: State, a: Action, o: ObjId)
    requires Enabled(s, a) && !a.HeavyFence? && FenceOk(s, o)
    ensures FenceOk(Do(s, a), o)
  {
    if o in s.history.fence {
      ObjectEvolves(s.heap, HeapOpOf(s, a), o);
    }
  }

  lemma KeepsShardGrew(s: State, a: Action, o: ObjId, j: nat)
    requires Enabled(s, a) && !a.HeavyFence? && Marks(s) && FenceOk(s, o)
    requires o in s.history.fence && o !in Do(s, a).col.visited && j < |s.history.fence[o].ctr|
    requires ShardGrew(s.heap.objs[o], s.history.fence[o], j)
    ensures o in Do(s, a).heap.objs && |Do(s, a).heap.objs[o].ctr| == |s.history.fence[o].ctr|
    ensures ShardGrew(Do(s, a).heap.objs[o], s.history.fence[o], j)
  {
    var op := HeapOpOf(s, a);
    CounterStep(s.heap, op, o, j);
    if op.Untag? && op.o == o {
      UntagMarks(s, a, o);
    }
  }

  lemma DisturbedStays(s: State, a: Action, o: ObjId, k: nat)
    requires Marks(s) && FenceOk(s, o) && Enabled(s, a) && !a.HeavyFence?
    requires o in s.history.fence && o !in Do(s, a).col.visited && o in s.heap.objs
    requires Disturbed(s.heap.objs[o], s.history.fence[o], k)
    ensures o in Do(s, a).heap.objs && Disturbed(Do(s, a).heap.objs[o], s.history.fence[o], k)
  {
    VisitedGrows(s, a);
    HistoryGrows(s, a);
    var x, f := s.heap.objs[o], s.history.fence[o];
    var j :| k <= j < |x.ctr| && j < |f.ctr| && (x.ctr[j].tag || x.ctr[j].n > f.ctr[j].n);
    CounterStep(s.heap, HeapOpOf(s, a), o, j);
    if HeapOpOf(s, a).Untag? && HeapOpOf(s, a).o == o {
      UntagMarks(s, a, o);
    }
  }

  /** An acquisition disturbs the shard it lands on. */
  lemma AcquireDisturbs(s: State, a: Action, o: ObjId)
    requires Enabled(s, a) && FenceOk(s, o) && o in s.history.fence
    requires HeapOpOf(s, a).Acquire? && HeapOpOf(s, a).o == o
    requires forall j :: 0 <= j < |s.history.fence[o].ctr| ==> ShardGrew(s.heap.objs[o], s.history.fence[o], j)
    ensures Disturbed(Do(s, a).heap.objs[o], s.history.fence[o], 0)
  {
    var shard := HeapOpOf(s, a).shard;
    assert ShardGrew(s.heap.objs[o], s.history.fence[o], shard);
    assert Do(s, a).heap.objs[o].ctr[shard] == Increment(s.heap.objs[o].ctr[shard]);
  }

  lemma SuspectBefore(s: State, a: Action, o: ObjId)
    requires Enabled(s, a) && !a.HeavyFence? && FenceOk(s, o) && Suspect(Do(s, a), o)
    ensures Suspect(s, o) && !(HeapOpOf(s, a).Acquire? && HeapOpOf(s, a).o == o)
  {
    HistoryGrows(s, a);
  }

  /** A suspect can be neither read nor downgraded. */
  lemma SuspectHidden(s: State, a: Action, o: ObjId)
    requires HeapInv(s.heap) && Enabled(s, a) && HiddenOk(s, o) && Suspect(s, o)
    ensures s.heap.objs[o].owners == multiset{}
    ensures !HasBackRef(s.heap.objs, o) && !HasBackRef(Do(s, a).heap.objs, o)
    ensures forall loc :: ReadLoc(s.heap, loc) != Some(o)
  {
    forall loc ensures ReadLoc(s.heap, loc) != Some(o) { Unreadable(s.heap, o, loc); }
    BackRefStaysCut(s.heap, HeapOpOf(s, a), o);
  }

  lemma KeepsHidden(s: State, a: Action, o: ObjId)
    requires HeapInv(s.heap) && Enabled(s, a) && !a.HeavyFence? && FenceOk(s, o) && HiddenOk(s, o)
    ensures HiddenOk(Do(s, a), o)
  {
    if Suspect(Do(s, a), o) {
      SuspectBefore(s, a, o);
      SuspectHidden(s, a, o);
      UnownedStays(s.heap, HeapOpOf(s, a), o);
    }
  }

  lemma KeepsBackRef(s: State, a: Action, o: ObjId)
    requires WeakAgree(s.heap) && Enabled(s, a) && HasBackRef(s.heap.objs, o)
    requires o !in CollectorAfter(s, a).visited
    ensures HasBackRef(Do(s, a).heap.objs, o)
  {
    var op, w := HeapOpOf(s, a), s.heap.objs[o].weak.value;
    ObjectEvolves(s.heap, op, o);
    ObjectEvolves(s.heap, op, w);
    if op == CutBackRef(w) {
      CutMarks(s, a, o);
    }
  }

  lemma KeepsUntouched(s: State, a: Action, o: ObjId)
    requires HeapInv(s.heap) && Enabled(s, a) && !a.HeavyFence? && Marks(s) && FenceOk(s, o) && UntouchedOk(s, o)
    ensures UntouchedOk(Do(s, a), o)
  {
    VisitedGrows(s, a);
    HistoryGrows(s, a);
    var s' := Do(s, a);
    if o in s'.history.fence && o !in s'.col.visited {
      forall j | 0 <= j < |s.history.fence[o].ctr|
        ensures o in s'.heap.objs && j < |s'.heap.objs[o].ctr| && ShardGrew(s'.heap.objs[o], s.history.fence[o], j)
      {
        KeepsShardGrew(s, a, o, j);
      }
      if HasBackRef(s.history.fence, o) { KeepsBackRef(s, a, o); }
      if o in s.history.acquired {
        DisturbedStays(s, a, o, 0);
      } else if o in s'.history.acquired {
        AcquireDisturbs(s, a, o);
      }
    }
  }

  // ----- readers

  /** The collector passes a record only when it reads its flag as false. */
  lemma FlagHolds(s: State, a: Action, t: nat)
    requires Enabled(s, a) && !a.HeavyFence? && t < |s.thr| && t < s.col.limit
    requires s.thr[t].sig.flag && !PastFlag(s.col, t)
    ensures !PastFlag(CollectorAfter(s, a), t)
  {
  }

  lemma KeepsReader(s: State, a: Action, t: nat, o: ObjId)
    requires HeapInv(s.heap) && Enabled(s, a) && !a.HeavyFence? && Marks(s)
    requires FenceOk(s, o) && HiddenOk(s, o) && ReaderSettled(s, t, o)
    ensures ReaderSettled(Do(s, a), t, o)
  {
    var s' := Do(s, a);
    VisitedGrows(s, a);
    HistoryGrows(s, a);
    if t < |s'.thr| && s'.thr[t].pc == Loaded(o) && Suspect(s', o) {
      SuspectBefore(s, a, o);
      SuspectHidden(s, a, o);
      assert t < |s.thr| && s.thr[t].pc == Loaded(o) by {
        if Mover(a) == Some(t) { NewReader(s.heap, s.thr[t], a, o, 0); }
      }
      if Mover(a) == Some(t) {
        assert a.Flush?;
        FlushKeepsSettledFlag(s.thr[t].sig);
      }
      FlagHolds(s, a, t);
    }
  }

  // ----- borrows

  /** When the traversal passes slot `i` of a record, it has recorded what memory holds there. */
  lemma SlotRecorded(s: State, a: Action, t: nat, i: nat, addr: nat)
    requires Enabled(s, a) && !a.HeavyFence? && t < |s.thr| && t < s.col.limit
    requires i < |s.thr[t].sig.slots| && s.thr[t].sig.slots[i] == Some(addr)
    requires PastSlot(s.col, t, i) ==> addr in s.col.hazards
    ensures PastSlot(CollectorAfter(s, a), t, i) ==> addr in CollectorAfter(s, a).hazards
  {
  }

  /** Thread `t` leaves the slot of a guard it keeps alone. */
  lemma SlotHolds(h: Heap, x: Thread, a: Action, i: nat)
    requires CanMove(h, x, a) && PcOk(h.objs, x) && GuardOk(h.objs, x, i) && SlotOk(h.objs, x, i)
    requires i in x.guards && i in ThreadAfter(h, x, a).guards
    requires i < |x.sig.slots| && SlotSettled(x.sig, i)
    ensures var y := ThreadAfter(h, x, a);
      SlotSettled(y.sig, i) && i < |y.sig.slots| && y.sig.slots[i] == x.sig.slots[i] && y.guards[i] == x.guards[i]
  {
    if a.Flush? {
      FlushKeepsSettledSlot(x.sig, i);
    }
  }

  lemma KeepsGuard(s: State, a: Action, t: nat, i: nat, o: ObjId)
    requires HeapInv(s.heap) && ReaderInv(s) && Enabled(s, a) && !a.HeavyFence? && Marks(s)
    requires FenceOk(s, o) && HiddenOk(s, o) && GuardSettled(s, t, i, o)
    ensures GuardSettled(Do(s, a), t, i, o)
  {
    var s' := Do(s, a);
    VisitedGrows(s, a);
    HistoryGrows(s, a);
    if t < |s'.thr| && i in s'.thr[t].guards && s'.thr[t].guards[i] == o && Suspect(s', o) {
      SuspectBefore(s, a, o);
      SuspectHidden(s, a, o);
      ObjectEvolves(s.heap, HeapOpOf(s, a), o);
      assert t < |s.thr| && i in s.thr[t].guards && s.thr[t].guards[i] == o by {
        if Mover(a) == Some(t) { NewReader(s.heap, s.thr[t], a, o, i); }
      }
      if Mover(a) == Some(t) {
        assert ThreadOk(s.heap.objs, s.thr[t]);
        SlotHolds(s.heap, s.thr[t], a, i);
      }
      SlotRecorded(s, a, t, i, s.heap.objs[o].addr);
    }
  }

  // ----- the heavy fence

  lemma FenceEstablishes(s: State, t: nat, i: nat, o: ObjId)
    requires HeapInv(s.heap) && ReaderInv(s) && Enabled(s, HeavyFence)
    ensures var s' := Do(s, HeavyFence);
      && FenceOk(s', o) && UntouchedOk(s', o) && HiddenOk(s', o) && ReaderSettled(s', t, o) && GuardSettled(s', t, i, o)
  {
    var s' := Do(s, HeavyFence);
    if o in s.heap.objs {
      assert CountOk(s.heap, o) && WeakRefOk(s.heap.objs, o);
      if s.heap.objs[o].owners == multiset{} { UnownedOwesNothing(s.heap, o); }
    }
    if t < |s.thr| {
      assert ThreadOk(s.heap.objs, s.thr[t]);
      assert GuardOk(s.heap.objs, s.thr[t], i) && SlotOk(s.heap.objs, s.thr[t], i);
    }
  }

  lemma FenceEstablishesInv(s: State)
    requires HeapInv(s.heap) && ReaderInv(s) && Enabled(s, HeavyFence)
    ensures FenceInv(Do(s, HeavyFence))
  {
    var s' := Do(s, HeavyFence);
    forall o: ObjId ensures FenceOk(s', o) { FenceEstablishes(s, 0, 0, o); }
    forall o: ObjId ensures UntouchedOk(s', o) { FenceEstablishes(s, 0, 0, o); }
    forall o: ObjId ensures HiddenOk(s', o) { FenceEstablishes(s, 0, 0, o); }
    forall t: nat, o: ObjId ensures ReaderSettled(s', t, o) { FenceEstablishes(s, t, 0, o); }
    forall t: nat, i: nat, o: ObjId ensures GuardSettled(s', t, i, o) { FenceEstablishes(s, t, i, o); }
  }

  lemma KeepsFenceInv(s: State, a: Action)
    requires HeapInv(s.heap) && ReaderInv(s) && FenceInv(s) && Marks(s) && Enabled(s, a)
    ensures FenceInv(Do(s, a))
  {
    if a.HeavyFence? {
      FenceEstablishesInv(s);
    } else {
      var s' := Do(s, a);
      VisitedGrows(s, a);
      HistoryGrows(s, a);
      forall o: ObjId ensures FenceOk(s', o) { KeepsFenceOk(s, a, o); }
      forall o: ObjId ensures UntouchedOk(s', o) { KeepsUntouched(s, a, o); }
      forall o: ObjId ensures HiddenOk(s', o) { KeepsHidden(s, a, o); }
      forall t: nat, o: ObjId ensures ReaderSettled(s', t, o) { KeepsReader(s, a, t, o); }
      forall t: nat, i: nat, o: ObjId ensures GuardSettled(s', t, i, o) { KeepsGuard(s, a, t, i, o); }
    }
  }
}
