/**
 The update of one object in the step system has only the outcomes that the contract of
 `CollectorThread.Collector.UpdateOne` allows, whatever steps other threads take in between. So
 what is proved from that contract, the bound on the passes, holds of the step system too; and what
 the step system adds is that an object that gets ready to be freed is dead.
 */
module UpdateOutcomes {
  import opened Options
  import opened Heap
  import opened Protocol
  import opened FenceInvariant
  import opened CollectorInvariant
  import opened FreeSafety
  import opened CollectorEffects

  predicate Updating(s: State, o: ObjId) {
    match s.col.pc
    case PreSum(p, _, _) => p == o
    case ClearSum(p, _, _) => p == o
    case ReSum(p, _, _) => p == o
    case ClearingWeak(p) => p == o
    case _ => false
  }

  /** An update that began in heap `h` is under way. */
  ghost predicate UnderWay(h: Heap, s: State, o: ObjId) {
    && Updating(s, o) && Progress(h, s.heap, {o})
    && o in h.objs && o in s.heap.objs && s.heap.objs[o].life == h.objs[o].life
    && (if s.col.pc.PreSum? || s.col.pc.ClearSum? then h.objs[o].life.DefaultState? else h.objs[o].life.RequiresReChecking?)
  }

  /** It has ended. */
  ghost predicate Ended(h: Heap, s: State, o: ObjId) {
    && s.col.pc.Choosing? && Progress(h, s.heap, {o}) && Outcome(h, s.heap, o)
    && (s.heap.objs[o].life.ReadyToFree? ==> Dead(s, o) || o in s.history.risky)
  }

  lemma CutStays(h: Heap, op: HeapOp, p: ObjId)
    requires HeapInv(h) && Ok(h, op) && IsCut(h, p)
    ensures IsCut(Apply(h, op), p)
  {
    assert WeakRefOk(h.objs, p);
    ObjectEvolves(h, op, p);
    ObjectEvolves(h, op, h.objs[p].weak.value);
  }

  lemma OnlyItsLife(s: State, a: Action, o: ObjId)
    requires Enabled(s, a) && Updating(s, o) && HeapOpOf(s, a).SetLife? && HeapOpOf(s, a).o != o
    ensures HeapOpOf(s, a).life.Pending? && s.heap.objs[HeapOpOf(s, a).o].life.Unsubmitted?
  {
  }

  lemma StepProgressAt(s: State, a: Action, o: ObjId, p: ObjId)
    requires HeapInv(s.heap) && Enabled(s, a) && Updating(s, o)
    ensures ProgressAt(s.heap, Apply(s.heap, HeapOpOf(s, a)), {o}, p)
  {
    var op := HeapOpOf(s, a);
    if p in s.heap.objs {
      ObjectEvolves(s.heap, op, p);
      if op.SetLife? && op.o != o { OnlyItsLife(s, a, o); }
      if IsCut(s.heap, p) { CutStays(s.heap, op, p); }
    } else if p in Apply(s.heap, op).objs {
      ObjectAppears(s.heap, op, p);
    }
  }

  lemma StepProgress(h: Heap, s: State, a: Action, o: ObjId)
    requires HeapInv(s.heap) && Enabled(s, a) && UnderWay(h, s, o)
    ensures Progress(h, Apply(s.heap, HeapOpOf(s, a)), {o})
  {
    var h' := Apply(s.heap, HeapOpOf(s, a));
    KeepsHeapInv(s.heap, HeapOpOf(s, a));
    forall p ensures ProgressAt(s.heap, h', {o}, p) { StepProgressAt(s, a, o, p); }
    ProgressTransitive(h, s.heap, h', {o}, {o}, {o});
  }

  /** What the collector's step makes of the state of the object. */
  lemma CollectLife(s: State, s': State, o: ObjId)
    requires Enabled(s, Collect) && s' == Do(s, Collect) && Updating(s, o) && o in s.heap.objs
    ensures o in s'.heap.objs
    ensures var pc, pc', life, life' := s.col.pc, s'.col.pc, s.heap.objs[o].life, s'.heap.objs[o].life;
      && (pc'.PreSum? || pc'.ClearSum? ==> (pc.PreSum? || pc.ClearSum?) && life' == life)
      && (pc'.ReSum? || pc'.ClearingWeak? ==> (pc.ReSum? || pc.ClearingWeak?) && life' == life)
      && (pc'.Choosing? && (pc.PreSum? || pc.ClearSum?) ==> life'.DefaultState? || life'.RequiresReChecking? || life' == life)
      && (pc'.Choosing? && pc.ReSum? ==> life'.DefaultState?)
      && (pc'.Choosing? && pc.ClearingWeak? ==> if HasBackRef(s.heap.objs, o) then life' == life else life'.ReadyToFree?)
  {
    ObjectEvolves(s.heap, HeapOpOf(s, Collect), o);
  }

  lemma CollectPc(s: State, o: ObjId)
    requires Enabled(s, Collect) && Updating(s, o)
    ensures CollectorAfter(s, Collect).pc.Choosing? || Updating(Do(s, Collect), o)
  {
  }

  /** A step of the collector continues the update or ends it. */
  lemma CollectGoesOn(h: Heap, s: State, o: ObjId)
    requires Inv(s) && Enabled(s, Collect) && UnderWay(h, s, o)
    ensures var s' := Do(s, Collect); if Updating(s', o) then UnderWay(h, s', o) else Ended(h, s', o)
  {
    KeepsLife(s, Collect, o);
    StepProgress(h, s, Collect, o);
    CollectLife(s, Do(s, Collect), o);
    CollectPc(s, o);
    if s.col.pc.ClearingWeak? && HasBackRef(s.heap.objs, o) {
      CutEnds(h, s, o);
    }
  }

  /** A cut back reference was set when the update began, and is gone when it ends. */
  lemma CutEnds(h: Heap, s: State, o: ObjId)
    requires Inv(s) && Enabled(s, Collect) && UnderWay(h, s, o)
    requires s.col.pc.ClearingWeak? && HasBackRef(s.heap.objs, o)
    ensures !IsCut(h, o) && IsCut(Do(s, Collect).heap, o)
    ensures Do(s, Collect).heap.objs[o].life == s.heap.objs[o].life
  {
    assert ProgressAt(h, s.heap, {o}, o);
    assert WeakRefOk(s.heap.objs, o);
    ObjectEvolves(s.heap, HeapOpOf(s, Collect), o);
  }

  /** A step of another thread leaves it under way. */
  lemma OthersGoOn(h: Heap, s: State, a: Action, o: ObjId)
    requires Inv(s) && Enabled(s, a) && !a.Collect? && UnderWay(h, s, o)
    ensures UnderWay(h, Do(s, a), o)
  {
    StepProgress(h, s, a, o);
    WaitsForCollect(s, a, o);
    ObjectEvolves(s.heap, HeapOpOf(s, a), o);
  }

  lemma WaitsForCollect(s: State, a: Action, o: ObjId)
    requires Enabled(s, a) && !a.Collect? && Updating(s, o) && o in s.heap.objs && IsTracked(s.heap.objs[o])
    ensures CollectorAfter(s, a).pc == s.col.pc && !(HeapOpOf(s, a).SetLife? && HeapOpOf(s, a).o == o)
  {
  }

  lemma Begins(s: State, o: ObjId)
    requires Inv(s) && Enabled(s, Visit(o))
    ensures var s' := Do(s, Visit(o));
      if Updating(s', o) then UnderWay(s.heap, s', o) else Ended(s.heap, s', o)
  {
    var s' := Do(s, Visit(o));
    forall p ensures ProgressAt(s.heap, s'.heap, {o}, p) {
      if IsCut(s.heap, p) { CutStays(s.heap, HeapOpOf(s, Visit(o)), p); }
    }
  }

  // ----- a whole update

  /** From the visit of `o`, after state `i`, up to state `j` the collector is busy with `o`. */
  ghost predicate IsUpdate(run: seq<State>, i: nat, j: nat, o: ObjId) {
    && IsRun(run) && i < j < |run|
    && Enabled(run[i], Visit(o)) && run[i + 1] == Do(run[i], Visit(o))
    && forall k :: i < k < j ==> Updating(run[k], o)
  }

  lemma GoesOn(h: Heap, s: State, a: Action, o: ObjId)
    requires Inv(s) && Enabled(s, a) && UnderWay(h, s, o)
    ensures var s' := Do(s, a); if Updating(s', o) then UnderWay(h, s', o) else Ended(h, s', o)
  {
    if a.Collect? {
      CollectGoesOn(h, s, o);
    } else {
      OthersGoOn(h, s, a, o);
    }
  }

  lemma RunBegins(run: seq<State>, i: nat, o: ObjId)
    requires IsRun(run) && i + 1 < |run| && Enabled(run[i], Visit(o)) && run[i + 1] == Do(run[i], Visit(o))
    ensures if Updating(run[i + 1], o) then UnderWay(run[i].heap, run[i + 1], o) else Ended(run[i].heap, run[i + 1], o)
  {
    RunInv(run, i);
    Begins(run[i], o);
  }

  lemma RunGoesOn(h: Heap, run: seq<State>, j: nat, o: ObjId)
    requires IsRun(run) && 0 < j < |run| && UnderWay(h, run[j - 1], o)
    ensures if Updating(run[j], o) then UnderWay(h, run[j], o) else Ended(h, run[j], o)
  {
    var a := StepOf(run, j);
    GoesOn(h, run[j - 1], a, o);
  }

  lemma {:induction false} UpdateGoesOn(run: seq<State>, i: nat, j: nat, o: ObjId)
    requires IsUpdate(run, i, j, o)
    ensures if Updating(run[j], o) then UnderWay(run[i].heap, run[j], o) else Ended(run[i].heap, run[j], o)
    decreases j
  {
    if j == i + 1 {
      RunBegins(run, i, o);
    } else {
      UpdateGoesOn(run, i, j - 1, o);
      RunGoesOn(run[i].heap, run, j, o);
    }
  }

  /**
   A finished update changes the state of no other object, leaves its object as the contract
   allows, and makes it ready to be freed only if it is dead.
   */
  lemma UpdateAgrees(run: seq<State>, i: nat, j: nat, o: ObjId)
    requires IsUpdate(run, i, j, o) && !Updating(run[j], o)
    ensures Progress(run[i].heap, run[j].heap, {o}) && Outcome(run[i].heap, run[j].heap, o)
    ensures run[j].heap.objs[o].life.ReadyToFree? && o !in run[j].history.risky ==> Dead(run[j], o)
  {
    UpdateGoesOn(run, i, j, o);
  }
}
