/**
 What the collector may conclude from the heavy fence that began its pass.

 `fence` is the heap at that fence. An object that nobody owned at the fence, that no weak reference
 could upgrade to, and that nobody has acquired since (`Suspect`) can only be reached by readers that
 were already under way at the fence. Their signals were drained by the fence, so the traversal that
 follows cannot miss them. Until the collector touches the tags of an object in this pass, the
 shards tell whether it was acquired: the shard it was acquired on has grown or carries a tag.
 */
module FenceInvariant {
  import opened Options
  import opened Counters
  import opened Signals
  import opened Heap
  import opened Protocol

  /** Shard `j` was not decremented since the fence, or its tag says so. */
  predicate ShardGrew(x: Obj, f: Obj, j: nat)
    requires j < |x.ctr| && j < |f.ctr|
  {
    x.ctr[j].tag || x.ctr[j].n >= f.ctr[j].n
  }

  /** Some shard from `k` on shows that the object was acquired or released since the fence. */
  predicate Disturbed(x: Obj, f: Obj, k: nat) {
    exists j :: k <= j < |x.ctr| && j < |f.ctr| && (x.ctr[j].tag || x.ctr[j].n > f.ctr[j].n)
  }

  /** At the fence nobody owned `o` and no weak reference could upgrade to it. */
  predicate Abandoned(s: State, o: ObjId) {
    o in s.history.fence && s.history.fence[o].owners == multiset{} && !HasBackRef(s.history.fence, o)
  }

  /** Nobody has acquired an abandoned object since the fence. */
  predicate Suspect(s: State, o: ObjId) {
    Abandoned(s, o) && o in s.heap.objs && o !in s.history.acquired
  }

  /** The traversal of this pass is past slot `i` of record `t`. */
  predicate PastSlot(col: Collector, t: nat, i: nat) {
    col.pc.Scanning? ==> t < col.pc.r || (t == col.pc.r && i < col.pc.i)
  }

  predicate PastFlag(col: Collector, t: nat) { col.pc.Scanning? ==> t < col.pc.r }

  predicate FenceOk(s: State, o: ObjId) {
    o in s.history.fence ==>
      && o in s.heap.objs
      && s.heap.objs[o].addr == s.history.fence[o].addr
      && |s.heap.objs[o].ctr| == |s.history.fence[o].ctr|
      && Sum(s.history.fence[o].ctr) == |s.history.fence[o].owners| - |s.history.fence[o].owed|
      && (s.history.fence[o].owners == multiset{} ==> s.history.fence[o].owed == multiset{})
      && (s.history.fence[o].weak.Some? ==>
            s.heap.objs[o].weak == s.history.fence[o].weak && s.history.fence[o].weak.value in s.history.fence)
      && (s.history.fence[o].backRef.None? ==> s.heap.objs[o].backRef.None?)
  }

  /** Until the collector touches `o` in this pass. */
  ghost predicate UntouchedOk(s: State, o: ObjId) {
    o in s.history.fence && o !in s.col.visited && o in s.heap.objs
    && |s.heap.objs[o].ctr| == |s.history.fence[o].ctr| ==>
      && (forall j :: 0 <= j < |s.history.fence[o].ctr| ==> ShardGrew(s.heap.objs[o], s.history.fence[o], j))
      && (o in s.history.acquired ==> Disturbed(s.heap.objs[o], s.history.fence[o], 0))
      && (HasBackRef(s.history.fence, o) ==> HasBackRef(s.heap.objs, o))
  }

  /** A suspect is still unowned, and no weak reference leads to it. */
  predicate HiddenOk(s: State, o: ObjId) {
    Suspect(s, o) ==> s.heap.objs[o].owners == multiset{} && !HasBackRef(s.heap.objs, o)
  }

  /** A reader between its load and its increment is still to be waited for. */
  predicate ReaderSettled(s: State, t: nat, o: ObjId) {
    t < |s.thr| && s.thr[t].pc == Loaded(o) && Suspect(s, o) ==>
      t < s.col.limit && s.thr[t].sig.flag && FlagSettled(s.thr[t].sig) && !PastFlag(s.col, t)
  }

  /** A borrow is still to be seen, or was seen. */
  predicate GuardSettled(s: State, t: nat, i: nat, o: ObjId) {
    t < |s.thr| && i in s.thr[t].guards && s.thr[t].guards[i] == o && Suspect(s, o) ==>
      && t < s.col.limit && i < |s.thr[t].sig.slots|
      && s.thr[t].sig.slots[i] == Some(s.heap.objs[o].addr)
      && SlotSettled(s.thr[t].sig, i)
      && (PastSlot(s.col, t, i) ==> s.heap.objs[o].addr in s.col.hazards)
  }

  ghost predicate FenceInv(s: State) {
    && s.col.limit <= |s.thr|
    && (forall o: ObjId :: FenceOk(s, o))
    && (forall o: ObjId :: UntouchedOk(s, o))
    && (forall o: ObjId :: HiddenOk(s, o))
    && (forall t: nat, o: ObjId :: ReaderSettled(s, t, o))
    && (forall t: nat, i: nat, o: ObjId :: GuardSettled(s, t, i, o))
  }

  // ----- dead objects

  /** Nobody owns `o`, is about to own it, borrows it, or can find it. */
  ghost predicate Dead(s: State, o: ObjId) {
    && o in s.heap.objs && s.heap.objs[o].owners == multiset{} && !HasBackRef(s.heap.objs, o)
    && (forall t :: 0 <= t < |s.thr| ==> s.thr[t].pc != Loaded(o))
    && (forall t, i :: 0 <= t < |s.thr| && i in s.thr[t].guards ==> s.thr[t].guards[i] != o)
  }

  lemma Unreadable(h: Heap, o: ObjId, loc: Loc)
    requires CellsAgree(h) && WeakAgree(h)
    requires o in h.objs && h.objs[o].owners == multiset{} && !HasBackRef(h.objs, o)
    ensures ReadLoc(h, loc) != Some(o)
  {
    match loc
    case Cell(c) => assert CellOk(h, o, c);
    case BackRef(w) => if w in h.objs { assert BackRefOk(h.objs, w); }
  }

  /** A suspect that the finished traversal did not find is dead. */
  lemma SuspectIsDead(s: State, o: ObjId)
    requires FenceInv(s)
    requires Suspect(s, o) && !s.col.pc.Scanning? && s.heap.objs[o].addr !in s.col.hazards
    ensures Dead(s, o)
  {
    assert HiddenOk(s, o);
    forall t | 0 <= t < |s.thr| ensures s.thr[t].pc != Loaded(o) {
      assert ReaderSettled(s, t, o);
    }
    forall t, i | 0 <= t < |s.thr| && i in s.thr[t].guards ensures s.thr[t].guards[i] != o {
      assert GuardSettled(s, t, i, o);
    }
  }

  // ----- what one step does to one object

  lemma CountersStay(h: Heap, op: HeapOp, o: ObjId)
    requires Ok(h, op) && o in h.objs && !(Counts(op) && op.o == o)
    ensures o in Apply(h, op).objs && Apply(h, op).objs[o].ctr == h.objs[o].ctr
  {
    if op.Exchange? {
      ExchangeEvolves(h, op.t, op.c, op.new_, o);
    } else if op.Install? {
      InstallEvolves(h, op.t, op.c, op.o, op.from, o);
    }
  }

  predicate CounterSteps(op: HeapOp, c: Counter, c': Counter) {
    || c' == c
    || ((op.Acquire? || op.Compensate?) && c' == Increment(c))
    || (op.Release? && c' == DecrementAndTag(c))
    || (op.Untag? && c' == ClearTag(c))
  }

  lemma CountingStep(h: Heap, op: HeapOp, o: ObjId, j: nat)
    requires Ok(h, op) && o in h.objs && j < |h.objs[o].ctr| && Counts(op) && op.o == o
    ensures o in Apply(h, op).objs && |Apply(h, op).objs[o].ctr| == |h.objs[o].ctr|
    ensures CounterSteps(op, h.objs[o].ctr[j], Apply(h, op).objs[o].ctr[j])
  {
  }

  lemma CounterStep(h: Heap, op: HeapOp, o: ObjId, j: nat)
    requires Ok(h, op) && o in h.objs && j < |h.objs[o].ctr|
    ensures o in Apply(h, op).objs && |Apply(h, op).objs[o].ctr| == |h.objs[o].ctr|
    ensures var c, c' := h.objs[o].ctr[j], Apply(h, op).objs[o].ctr[j];
      c' == c || (Counts(op) && op.o == o && CounterSteps(op, c, c'))
  {
    if Counts(op) && op.o == o {
      CountingStep(h, op, o, j);
    } else {
      CountersStay(h, op, o);
    }
  }

  lemma UnownedStays(h: Heap, op: HeapOp, o: ObjId)
    requires Ok(h, op) && CellsAgree(h)
    requires o in h.objs && h.objs[o].owners == multiset{} && !(op.Acquire? && op.o == o)
    ensures o in Apply(h, op).objs && Apply(h, op).objs[o].owners == multiset{}
  {
    if op.Exchange? || op.Install? {
      assert CellOk(h, o, op.c);
      assert o in TakeOut(h, op.t, op.c).objs && TakeOut(h, op.t, op.c).objs[o] == h.objs[o];
    }
  }

  lemma BackRefStaysCut(h: Heap, op: HeapOp, o: ObjId)
    requires Ok(h, op) && WeakAgree(h)
    requires o in h.objs && !HasBackRef(h.objs, o) && !(op.InitWeak? && op.o == o)
    ensures !HasBackRef(Apply(h, op).objs, o)
  {
    assert WeakRefOk(h.objs, o);
    ObjectEvolves(h, op, o);
    if h.objs[o].weak.Some? {
      ObjectEvolves(h, op, h.objs[o].weak.value);
    }
  }

  /** Counts of `o` go up only by someone who owns, borrows or has loaded it. */
  lemma AcquireNeedsAccess(s: State, a: Action, o: ObjId)
    requires Enabled(s, a) && HeapOpOf(s, a).Acquire? && HeapOpOf(s, a).o == o
    ensures || s.heap.objs[o].owners != multiset{}
            || (exists t :: 0 <= t < |s.thr| && s.thr[t].pc == Loaded(o))
            || (exists t, i :: 0 <= t < |s.thr| && i in s.thr[t].guards && s.thr[t].guards[i] == o)
  {
    match a
    case IncrementLoaded(t, _) => assert s.thr[t].pc == Loaded(o);
    case CloneGuard(t, i, _) => assert s.thr[t].guards[i] == o;
    case _ =>
  }

  lemma DeadHeapPart(s: State, a: Action, o: ObjId)
    requires HeapInv(s.heap) && Enabled(s, a) && Dead(s, o)
    ensures !HasBackRef(Do(s, a).heap.objs, o)
    ensures o in Do(s, a).heap.objs && Do(s, a).heap.objs[o].owners == multiset{}
    ensures !HeapOpOf(s, a).Untag? ==> Do(s, a).heap.objs[o].ctr == s.heap.objs[o].ctr
  {
    var op := HeapOpOf(s, a);
    if op.Acquire? && op.o == o {
      AcquireNeedsAccess(s, a, o);
    }
    UnownedOwesNothing(s.heap, o);
    UnownedStays(s.heap, op, o);
    BackRefStaysCut(s.heap, op, o);
    if !op.Untag? {
      CountersStay(s.heap, op, o);
    }
  }

  /** A thread comes to have loaded or borrowed `o` only by reading a location that leads to it. */
  lemma NewReader(h: Heap, x: Thread, a: Action, o: ObjId, i: nat)
    requires CanMove(h, x, a)
    ensures ThreadAfter(h, x, a).pc == Loaded(o) ==>
      || (a.Flush? && x.pc == Loaded(o))
      || (a.Load? && ReadLoc(h, x.pc.loc) == Some(o))
    ensures i in ThreadAfter(h, x, a).guards && ThreadAfter(h, x, a).guards[i] == o ==>
      || (i in x.guards && x.guards[i] == o)
      || (a.ReLoad? && ReadLoc(h, x.pc.loc) == Some(o))
  {
  }

  /** Once dead, dead for ever: no step of any thread or of the collector brings `o` back. */
  lemma DeadStays(s: State, a: Action, o: ObjId)
    requires HeapInv(s.heap) && Enabled(s, a) && Dead(s, o)
    ensures Dead(Do(s, a), o)
  {
    DeadHeapPart(s, a, o);
    var s' := Do(s, a);
    forall t | 0 <= t < |s'.thr|
      ensures s'.thr[t].pc != Loaded(o) && forall i :: i in s'.thr[t].guards ==> s'.thr[t].guards[i] != o
    {
      if Mover(a) == Some(t) {
        if a.Load? || a.ReLoad? { Unreadable(s.heap, o, s.thr[t].pc.loc); }
        forall i | i in s'.thr[t].guards ensures s'.thr[t].guards[i] != o {
          NewReader(s.heap, s.thr[t], a, o, i);
        }
        NewReader(s.heap, s.thr[t], a, o, 0);
      }
    }
  }
}
