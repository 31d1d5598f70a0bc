/**
 The update of one object in the step system when the other threads stand still: it comes to an
 end, with exactly the result that the contract of `CollectorThread.Collector` states for it.
 */
module CollectorAlone {
  import opened Options
  import opened Counters
  import opened Heap
  import opened Protocol
  import opened FreeSafety
  import opened CollectorEffects
  import opened Traversal

  /** The collector has taken `n` steps in the update of one object. */
  ghost predicate Busy(s: State, n: nat, s': State) {
    && Collects(s, n, s') && s'.thr == s.thr && s'.homes == s.homes
    && s'.col == s.col.(pc := s'.col.pc, visited := s'.col.visited)
  }

  lemma BusyMore(s: State, m: nat, u: State, n: nat, s': State)
    requires Busy(s, m, u) && Busy(u, n, s')
    ensures Busy(s, m + n, s')
  {
    CollectsMore(s, m, u, n, s');
  }

  lemma BusyNot(s: State)
    ensures Busy(s, 0, s)
  {
    CollectsNone(s);
  }

  lemma BusyOne(s: State) returns (s': State)
    requires Enabled(s, Collect) && !s.col.pc.Scanning?
    ensures Busy(s, 1, s') && s' == Do(s, Collect)
  {
    CollectsOne(s);
    s' := Do(s, Collect);
  }

  // ----- the three scans

  predicate AtPre(s: State, o: ObjId, k: nat) {
    o in s.heap.objs && k <= |s.heap.objs[o].ctr| && s.col.pc == PreSum(o, k, SumTo(s.heap.objs[o].ctr, k))
  }

  lemma PreStep(s: State, o: ObjId, k: nat) returns (s': State)
    requires AtPre(s, o, k) && k < |s.heap.objs[o].ctr|
    ensures Busy(s, 1, s') && s'.heap == s.heap && AtPre(s', o, k + 1) && s'.col.visited == s.col.visited
  {
    s' := BusyOne(s);
  }

  lemma {:induction false} PreScan(s: State, o: ObjId, k: nat, left: nat) returns (s': State)
    requires AtPre(s, o, k) && k + left == |s.heap.objs[o].ctr|
    ensures Busy(s, left, s') && s'.heap == s.heap && AtPre(s', o, k + left) && s'.col.visited == s.col.visited
    decreases left
  {
    if left == 0 {
      BusyNot(s);
      s' := s;
    } else {
      var m := PreStep(s, o, k);
      s' := PreScan(m, o, k + 1, left - 1);
      BusyMore(s, 1, m, left - 1, s');
    }
  }

  predicate AtClear(h: Heap, s: State, o: ObjId, k: nat) {
    o in h.objs && k <= |h.objs[o].ctr|
    && ClearedUpTo(h, s.heap, o, k, SumTo(h.objs[o].ctr, k)) && s.col.pc == ClearSum(o, k, SumTo(h.objs[o].ctr, k))
  }

  lemma ClearStep(h: Heap, s: State, o: ObjId, k: nat) returns (s': State)
    requires AtClear(h, s, o, k) && k < |h.objs[o].ctr|
    ensures Busy(s, 1, s') && AtClear(h, s', o, k + 1) && s'.col.visited == s.col.visited
  {
    ClearedStep(h, s.heap, o, k, SumTo(h.objs[o].ctr, k));
    assert Cleared(h.objs[o].ctr, k)[k] == h.objs[o].ctr[k];
    s' := BusyOne(s);
  }

  lemma {:induction false} ClearScan(h: Heap, s: State, o: ObjId, k: nat, left: nat) returns (s': State)
    requires AtClear(h, s, o, k) && k + left == |h.objs[o].ctr|
    ensures Busy(s, left, s') && AtClear(h, s', o, k + left) && s'.col.visited == s.col.visited
    decreases left
  {
    if left == 0 {
      BusyNot(s);
      s' := s;
    } else {
      var m := ClearStep(h, s, o, k);
      s' := ClearScan(h, m, o, k + 1, left - 1);
      BusyMore(s, 1, m, left - 1, s');
    }
  }

  predicate AtRe(s: State, o: ObjId, k: nat) {
    && o in s.heap.objs && k <= |s.heap.objs[o].ctr| && s.col.pc == ReSum(o, k, SumTo(s.heap.objs[o].ctr, k))
    && forall j :: 0 <= j < k ==> !s.heap.objs[o].ctr[j].tag
  }

  /** The update is over. */
  predicate Over(s: State, s': State, o: ObjId) {
    s'.col.pc.Choosing? && s'.col.visited == s.col.visited + {o}
  }

  lemma ReStep(s: State, o: ObjId, k: nat) returns (s': State)
    requires AtRe(s, o, k) && k < |s.heap.objs[o].ctr| && !s.heap.objs[o].life.Freed?
    ensures Busy(s, 1, s')
    ensures if s.heap.objs[o].ctr[k].tag then Over(s, s', o) && s'.heap == Apply(s.heap, SetLife(o, DefaultState))
            else s'.heap == s.heap && AtRe(s', o, k + 1) && s'.col.visited == s.col.visited
  {
    s' := BusyOne(s);
  }

  lemma {:induction false} ReScan(s: State, o: ObjId, k: nat, left: nat) returns (n: nat, s': State)
    requires AtRe(s, o, k) && k + left == |s.heap.objs[o].ctr| && !s.heap.objs[o].life.Freed?
    ensures Busy(s, n, s')
    ensures if Tagged(s.heap.objs[o].ctr) then Over(s, s', o) && s'.heap == Apply(s.heap, SetLife(o, DefaultState))
            else s'.heap == s.heap && AtRe(s', o, k + left) && s'.col.visited == s.col.visited
    decreases left
  {
    if left == 0 {
      BusyNot(s);
      n, s' := 0, s;
    } else {
      var m := ReStep(s, o, k);
      if s.heap.objs[o].ctr[k].tag {
        n, s' := 1, m;
      } else {
        n, s' := ReScan(m, o, k + 1, left - 1);
        BusyMore(s, 1, m, n, s');
        n := n + 1;
      }
    }
  }

  // ----- the decisions

  lemma PreEnds(s: State, o: ObjId) returns (s': State)
    requires o in s.heap.objs && AtPre(s, o, |s.heap.objs[o].ctr|) && s.heap.objs[o].life.DefaultState?
    ensures Busy(s, 1, s')
    ensures if Sum(s.heap.objs[o].ctr) == 0
            then s'.heap == s.heap && AtClear(s.heap, s', o, 0) && s'.col.visited == s.col.visited + {o}
            else s'.heap == s.heap && Over(s, s', o)
  {
    s' := BusyOne(s);
    ClearedStarts(s.heap, o);
    assert s.heap.objs[o].(life := DefaultState) == s.heap.objs[o];
    assert SetObj(s.heap, o, s.heap.objs[o]) == s.heap;
  }

  lemma ClearEnds(h: Heap, s: State, o: ObjId) returns (s': State)
    requires o in h.objs && AtClear(h, s, o, |h.objs[o].ctr|) && h.objs[o].life.DefaultState? && Sum(h.objs[o].ctr) == 0
    requires o in s.col.visited
    ensures Busy(s, 1, s') && Over(s, s', o)
    ensures s'.heap == Apply(SetObj(h, o, h.objs[o].(ctr := Untagged(h.objs[o].ctr))), SetLife(o, RequiresReChecking))
  {
    ClearedEnds(h, s.heap, o, SumTo(h.objs[o].ctr, |h.objs[o].ctr|));
    s' := BusyOne(s);
  }

  lemma ReEnds(s: State, o: ObjId) returns (s': State)
    requires o in s.heap.objs && AtRe(s, o, |s.heap.objs[o].ctr|) && !s.heap.objs[o].life.Freed?
    ensures Busy(s, 1, s')
    ensures if Sum(s.heap.objs[o].ctr) == 0
            then s'.heap == s.heap && s'.col.pc == ClearingWeak(o) && s'.col.visited == s.col.visited
            else s'.heap == Apply(s.heap, SetLife(o, DefaultState)) && Over(s, s', o)
  {
    s' := BusyOne(s);
  }

  lemma WeakEnds(s: State, o: ObjId) returns (s': State)
    requires o in s.heap.objs && s.col.pc == ClearingWeak(o) && !s.heap.objs[o].life.Freed?
    ensures Busy(s, 1, s') && Over(s, s', o)
    ensures s'.heap == if HasBackRef(s.heap.objs, o) then Apply(s.heap, CutBackRef(s.heap.objs[o].weak.value))
                       else Apply(s.heap, SetLife(o, ReadyToFree))
  {
    s' := BusyOne(s);
  }

  // ----- the whole update

  function DefaultHeap(h: Heap, o: ObjId): Heap
    requires o in h.objs && h.objs[o].life.DefaultState?
  {
    if Sum(h.objs[o].ctr) != 0 then h
    else Apply(SetObj(h, o, h.objs[o].(ctr := Untagged(h.objs[o].ctr))), SetLife(o, RequiresReChecking))
  }

  lemma ClearAlone(h: Heap, s: State, o: ObjId) returns (n: nat, s': State)
    requires AtClear(h, s, o, 0) && h.objs[o].life.DefaultState? && Sum(h.objs[o].ctr) == 0 && o in s.col.visited
    ensures Busy(s, n, s') && Over(s, s', o) && s'.heap == DefaultHeap(h, o)
  {
    var len := |h.objs[o].ctr|;
    var m := ClearScan(h, s, o, 0, len);
    s' := ClearEnds(h, m, o);
    BusyMore(s, len, m, 1, s');
    n := len + 1;
  }

  lemma DefaultAlone(s: State, o: ObjId) returns (n: nat, s': State)
    requires AtPre(s, o, 0) && s.heap.objs[o].life.DefaultState?
    ensures Busy(s, n, s') && Over(s, s', o) && s'.heap == DefaultHeap(s.heap, o)
  {
    var len := |s.heap.objs[o].ctr|;
    var m1 := PreScan(s, o, 0, len);
    var m2 := PreEnds(m1, o);
    BusyMore(s, len, m1, 1, m2);
    n, s' := len + 1, m2;
    if Sum(s.heap.objs[o].ctr) == 0 {
      var k;
      k, s' := ClearAlone(s.heap, m2, o);
      BusyMore(s, n, m2, k, s');
      n := n + k;
      assert s.col.visited + {o} + {o} == s.col.visited + {o};
    }
  }

  function ReCheckHeap(h: Heap, o: ObjId): Heap
    requires o in h.objs && h.objs[o].life.RequiresReChecking?
  {
    if Tagged(h.objs[o].ctr) || Sum(h.objs[o].ctr) != 0 then Apply(h, SetLife(o, DefaultState))
    else if HasBackRef(h.objs, o) then Apply(h, CutBackRef(h.objs[o].weak.value))
    else Apply(h, SetLife(o, ReadyToFree))
  }

  lemma CutIsExact(h: Heap, o: ObjId)
    requires o in h.objs && UpdateCuts(h.objs[o]) && HasBackRef(h.objs, o) && WeakAgree(h)
    ensures Exactly(h, Apply(h, CutBackRef(h.objs[o].weak.value)), o)
  {
    CutExact(h, o);
  }

  lemma LifeIsExact(h: Heap, o: ObjId, life: Life)
    requires o in h.objs && h.objs[o].life.RequiresReChecking? && !(UpdateCuts(h.objs[o]) && HasBackRef(h.objs, o))
    requires life == if UpdateCuts(h.objs[o]) then ReadyToFree else DefaultState
    ensures Exactly(h, Apply(h, SetLife(o, life)), o)
  {
    SetLifeExact(h, o, life);
  }

  lemma ReCheckHeapExact(h: Heap, o: ObjId)
    requires o in h.objs && h.objs[o].life.RequiresReChecking? && WeakAgree(h)
    ensures Exactly(h, ReCheckHeap(h, o), o)
  {
    if UpdateCuts(h.objs[o]) && HasBackRef(h.objs, o) {
      CutIsExact(h, o);
    } else {
      LifeIsExact(h, o, if UpdateCuts(h.objs[o]) then ReadyToFree else DefaultState);
    }
  }

  lemma UntaggedAlone(s: State, o: ObjId) returns (n: nat, s': State)
    requires o in s.heap.objs && AtRe(s, o, |s.heap.objs[o].ctr|) && s.heap.objs[o].life.RequiresReChecking?
    ensures Busy(s, n, s') && Over(s, s', o) && s'.heap == ReCheckHeap(s.heap, o)
  {
    var m := ReEnds(s, o);
    n, s' := 1, m;
    if Sum(s.heap.objs[o].ctr) == 0 {
      s' := WeakEnds(m, o);
      BusyMore(s, 1, m, 1, s');
      n := 2;
    }
  }

  lemma ReCheckAlone(s: State, o: ObjId) returns (n: nat, s': State)
    requires AtRe(s, o, 0) && s.heap.objs[o].life.RequiresReChecking?
    ensures Busy(s, n, s') && Over(s, s', o) && s'.heap == ReCheckHeap(s.heap, o)
  {
    n, s' := ReScan(s, o, 0, |s.heap.objs[o].ctr|);
    if !Tagged(s.heap.objs[o].ctr) {
      var m, k := s', 0;
      k, s' := UntaggedAlone(m, o);
      BusyMore(s, n, m, k, s');
      n := n + k;
    }
  }

  lemma VisitStep(s: State, o: ObjId)
    requires s.col.pc.Choosing? && TrackedIn(s.heap, o) && o !in s.col.visited
    ensures Enabled(s, Visit(o))
    ensures var s' := Do(s, Visit(o));
      && s'.thr == s.thr && s'.homes == s.homes
      && if s.heap.objs[o].addr in s.col.hazards
         then s'.heap == Apply(s.heap, SetLife(o, DefaultState)) && s'.col == s.col.(visited := s.col.visited + {o})
         else s'.heap == s.heap && s'.col == s.col.(pc := s'.col.pc)
              && if s.heap.objs[o].life.DefaultState? then AtPre(s', o, 0) else AtRe(s', o, 0)
  {
  }

  /**
   A visit of an object, followed by the collector's steps until it is free again: an object in a
   hazard slot goes back to DefaultState, any other gets exactly its update.
   */
  lemma UpdateAlone(s: State, o: ObjId) returns (n: nat, s': State)
    requires Reachable(s) && s.col.pc.Choosing? && TrackedIn(s.heap, o) && o !in s.col.visited
    ensures Enabled(s, Visit(o)) && Collects(Do(s, Visit(o)), n, s')
    ensures s'.thr == s.thr && s'.col == s.col.(visited := s.col.visited + {o})
    ensures if s.heap.objs[o].addr in s.col.hazards then s'.heap == Apply(s.heap, SetLife(o, DefaultState))
            else Exactly(s.heap, s'.heap, o)
  {
    VisitStep(s, o);
    var m := Do(s, Visit(o));
    if s.heap.objs[o].addr in s.col.hazards {
      BusyNot(m);
      n, s' := 0, m;
    } else if s.heap.objs[o].life.DefaultState? {
      n, s' := DefaultAlone(m, o);
      DefaultExact(s.heap, o);
    } else {
      ReachableInv(s);
      n, s' := ReCheckAlone(m, o);
      ReCheckHeapExact(s.heap, o);
    }
  }
}
