/**
 Hazard slots and flags tell the truth about their thread: as the thread itself sees them, its
 non-null slots are exactly its live guards and the pointer it is just publishing, and its flag
 is set exactly inside `load_owned`.
 */
module ReaderInvariant {
  import opened Options
  import opened Signals
  import opened Heap
  import opened Protocol

  /** What slot `i` has to contain, going by the guards and the program counter. */
  function Expected(objs: map<ObjId, Obj>, x: Thread, i: nat): Option<nat> {
    if i in x.guards && x.guards[i] in objs then Some(objs[x.guards[i]].addr)
    else if x.pc.Published? && x.pc.slot == i then Some(x.pc.addr)
    else None
  }

  predicate GuardOk(objs: map<ObjId, Obj>, x: Thread, i: nat) {
    i in x.guards ==> i < SLOTS && x.guards[i] in objs && !(x.pc.Published? && x.pc.slot == i)
  }

  predicate SlotOk(objs: map<ObjId, Obj>, x: Thread, i: nat) {
    i < |x.sig.slots| ==> Drain(x.sig).slots[i] == Expected(objs, x, i)
  }

  predicate PcOk(objs: map<ObjId, Obj>, x: Thread) {
    && |x.sig.slots| == SLOTS
    && Drain(x.sig).flag == InCriticalSection(x.pc)
    && (x.pc.Loaded? ==> x.pc.o in objs)
    && (x.pc.Published? ==> x.pc.slot < SLOTS)
  }

  ghost predicate ThreadOk(objs: map<ObjId, Obj>, x: Thread) {
    && PcOk(objs, x)
    && (forall i: nat :: GuardOk(objs, x, i))
    && (forall i: nat :: SlotOk(objs, x, i))
  }

  ghost predicate ReaderInv(s: State) {
    forall t :: 0 <= t < |s.thr| ==> ThreadOk(s.heap.objs, s.thr[t])
  }

  // ----- one thread's own step, the heap standing still

  lemma StepKeepsPc(h: Heap, x: Thread, a: Action)
    requires CanMove(h, x, a) && PcOk(h.objs, x)
    requires forall loc :: ReadLoc(h, loc).Some? ==> ReadLoc(h, loc).value in h.objs
    ensures PcOk(h.objs, ThreadAfter(h, x, a))
  {
    match a
    case BeginLoad(_, _) => DrainIssue(x.sig, FlagStore(true));
    case Leave(_) => DrainIssue(x.sig, FlagStore(false));
    case Publish(_) =>
      var slot := FirstNull(Drain(x.sig).slots, 0);
      if slot.Some? { DrainIssue(x.sig, SlotStore(slot.value, Some(x.pc.addr))); }
    case ReLoad(_) => DrainIssue(x.sig, SlotStore(x.pc.slot, None));
    case Unborrow(_, i) => DrainIssue(x.sig, SlotStore(i, None));
    case _ =>
  }

  lemma StepKeepsGuard(h: Heap, x: Thread, a: Action, i: nat)
    requires CanMove(h, x, a) && PcOk(h.objs, x) && GuardOk(h.objs, x, i) && SlotOk(h.objs, x, i)
    ensures GuardOk(h.objs, ThreadAfter(h, x, a), i)
  {
  }

  lemma StepKeepsSlot(h: Heap, x: Thread, a: Action, i: nat)
    requires CanMove(h, x, a) && PcOk(h.objs, x) && GuardOk(h.objs, x, i) && SlotOk(h.objs, x, i)
    ensures SlotOk(h.objs, ThreadAfter(h, x, a), i)
  {
    match a
    case BeginLoad(_, _) => DrainIssue(x.sig, FlagStore(true));
    case Leave(_) => DrainIssue(x.sig, FlagStore(false));
    case Publish(_) =>
      var slot := FirstNull(Drain(x.sig).slots, 0);
      if slot.Some? { DrainIssue(x.sig, SlotStore(slot.value, Some(x.pc.addr))); }
    case ReLoad(_) => DrainIssue(x.sig, SlotStore(x.pc.slot, None));
    case Unborrow(_, j) => DrainIssue(x.sig, SlotStore(j, None));
    case _ =>
  }

  lemma StepKeepsThread(h: Heap, x: Thread, a: Action)
    requires HeapInv(h) && CanMove(h, x, a) && ThreadOk(h.objs, x)
    ensures ThreadOk(h.objs, ThreadAfter(h, x, a))
  {
    forall loc | ReadLoc(h, loc).Some? ensures ReadLoc(h, loc).value in h.objs {
      if loc.BackRef? { assert BackRefOk(h.objs, loc.w); }
    }
    StepKeepsPc(h, x, a);
    forall i: nat ensures GuardOk(h.objs, ThreadAfter(h, x, a), i) { StepKeepsGuard(h, x, a, i); }
    forall i: nat ensures SlotOk(h.objs, ThreadAfter(h, x, a), i) { StepKeepsSlot(h, x, a, i); }
  }

  // ----- the heap moves on, the thread standing still

  lemma HeapKeepsThread(h: Heap, op: HeapOp, x: Thread)
    requires Ok(h, op) && ThreadOk(h.objs, x)
    ensures ThreadOk(Apply(h, op).objs, x)
  {
    var objs := Apply(h, op).objs;
    if x.pc.Loaded? { ObjectEvolves(h, op, x.pc.o); }
    forall i: nat ensures GuardOk(objs, x, i) && SlotOk(objs, x, i) {
      assert GuardOk(h.objs, x, i) && SlotOk(h.objs, x, i);
      if i in x.guards { ObjectEvolves(h, op, x.guards[i]); }
    }
  }

  lemma DrainKeepsThread(objs: map<ObjId, Obj>, x: Thread)
    requires ThreadOk(objs, x)
    ensures ThreadOk(objs, x.(sig := Drain(x.sig)))
  {
    var y := x.(sig := Drain(x.sig));
    forall i: nat ensures GuardOk(objs, y, i) && SlotOk(objs, y, i) {
      assert GuardOk(objs, x, i) && SlotOk(objs, x, i);
    }
  }

  lemma NewThreadOk(objs: map<ObjId, Obj>)
    ensures ThreadOk(objs, Thread(Silent, Idle, map[]))
  {
  }

  lemma KeepsReaderInv(s: State, a: Action)
    requires HeapInv(s.heap) && ReaderInv(s) && Enabled(s, a)
    ensures ReaderInv(Do(s, a))
  {
    var s' := Do(s, a);
    forall t | 0 <= t < |s'.thr| ensures ThreadOk(s'.heap.objs, s'.thr[t]) {
      if t < |s.thr| {
        assert ThreadOk(s.heap.objs, s.thr[t]);
        if Mover(a) == Some(t) {
          StepKeepsThread(s.heap, s.thr[t], a);
        } else if a.HeavyFence? {
          DrainKeepsThread(s.heap.objs, s.thr[t]);
        }
        HeapKeepsThread(s.heap, HeapOpOf(s, a), s'.thr[t]);
      } else {
        NewThreadOk(s'.heap.objs);
      }
    }
  }
}
