/** The theorems about whole runs. */
module FreeSafety {
  import opened Options
  import opened Counters
  import opened Signals
  import opened Heap
  import opened Protocol
  import opened ReaderInvariant
  import opened FenceInvariant
  import FencePreserved
  import opened CollectorInvariant

  ghost predicate Inv(s: State) {
    HeapInv(s.heap) && ReaderInv(s) && FenceInv(s) && CollectorInv(s)
  }

  lemma InitInv(s: State)
    requires Init(s)
    ensures Inv(s)
  {
  }

  lemma KeepsInv(s: State, a: Action)
    requires Inv(s) && Enabled(s, a)
    ensures Inv(Do(s, a))
  {
    KeepsHeapInv(s.heap, HeapOpOf(s, a));
    KeepsReaderInv(s, a);
    FencePreserved.KeepsFenceInv(s, a);
    KeepsCollectorInv(s, a);
  }

  lemma {:induction false} RunInv(run: seq<State>, k: nat)
    requires IsRun(run) && k < |run|
    ensures Inv(run[k])
  {
    if k == 0 {
      InitInv(run[0]);
    } else {
      RunInv(run, k - 1);
      assert NextAt(run, k - 1);
      var a :| Enabled(run[k - 1], a) && run[k] == Do(run[k - 1], a);
      KeepsInv(run[k - 1], a);
    }
  }

  lemma ReachableInv(s: State)
    requires Reachable(s)
    ensures Inv(s)
  {
    var run :| IsRun(run) && run[|run| - 1] == s;
    RunInv(run, |run| - 1);
  }

  // ----- free safety

  /**
   An object is ready to be freed, or freed, only when nothing refers to it any more, unless it
   was judged in a pass at whose fence a `compare_and_set` still owed a count for it.
   */
  lemma FreedIsUnreachable(s: State, o: ObjId)
    requires Reachable(s) && o in s.heap.objs && o !in s.history.risky
    requires s.heap.objs[o].life.ReadyToFree? || s.heap.objs[o].life.Freed?
    ensures s.heap.objs[o].owners == multiset{}
    ensures forall loc :: ReadLoc(s.heap, loc) != Some(o)
    ensures forall t :: 0 <= t < |s.thr| ==> s.thr[t].pc != Loaded(o)
    ensures forall t, i :: 0 <= t < |s.thr| && i in s.thr[t].guards ==> s.thr[t].guards[i] != o
  {
    ReachableInv(s);
    assert LifeOk(s, o);
    forall loc ensures ReadLoc(s.heap, loc) != Some(o) { Unreadable(s.heap, o, loc); }
  }

  function HomeOf(s: State, c: nat): set<ObjId> { if c in s.homes then {s.homes[c]} else {} }

  function DataOf(place: Place): set<ObjId> { if place.InObject? then {place.p} else {} }

  function LocTouched(s: State, loc: Loc): set<ObjId> {
    match loc
    case BackRef(w) => {w}
    case Cell(c) => HomeOf(s, c)
  }

  /**
   The objects whose memory a step reads or writes. Destructors are the exception: they work on
   the data of the object that is being freed, which is theirs alone.
   */
  ghost function Touched(s: State, a: Action): set<ObjId>
    requires Enabled(s, a)
  {
    match a
    case Submit(o) => {o}
    case Clone(_, o, _) => {o}
    case CloneGuard(t, i, _) => {s.thr[t].guards[i]}
    case Move(_, place, to) => DataOf(place) + DataOf(to)
    case Drop(o, place, _) => {o} + DataOf(place)
    case Swap(_, c, _) => HomeOf(s, c)
    case Install(_, c, _, from) => HomeOf(s, c) + DataOf(from)
    case Compensate(o, _, _) => {o}
    case Destroy(op) => if op.Release? then {op.o} else {}
    case Downgrade(_, o, _, _, _) => {o}
    case Deref(o) => {o}
    case DerefGuard(t, i) => {s.thr[t].guards[i]}
    case Load(t) => LocTouched(s, s.thr[t].pc.loc)
    case IncrementLoaded(t, _) => {s.thr[t].pc.o}
    case PreLoad(_, loc) => LocTouched(s, loc)
    case ReLoad(t) => LocTouched(s, s.thr[t].pc.loc)
    case Collect => CollectTouched(s)
    case Free(o) => {o}
    case _ => {}
  }

  function CollectTouched(s: State): set<ObjId> {
    match s.col.pc
    case PreSum(o, _, _) => {o}
    case ClearSum(o, _, _) => {o}
    case ReSum(o, _, _) => {o}
    case ClearingWeak(o) =>
      if o in s.heap.objs && s.heap.objs[o].weak.Some? then {o, s.heap.objs[o].weak.value} else {o}
    case _ => {}
  }

  predicate Live(s: State, o: ObjId) { o in s.heap.objs && !s.heap.objs[o].life.Freed? }

  predicate LiveOrRisky(s: State, o: ObjId) { Live(s, o) || o in s.history.risky }

  lemma NotDeadIsLive(s: State, o: ObjId)
    requires Inv(s) && o in s.heap.objs && !Dead(s, o)
    ensures LiveOrRisky(s, o)
  {
    assert LifeOk(s, o);
  }

  lemma CollectTouchesLive(s: State, o: ObjId)
    requires Inv(s) && Enabled(s, Collect) && o in CollectTouched(s)
    ensures LiveOrRisky(s, o)
  {
    var p := if s.col.pc.ClearingWeak? then s.col.pc.o else o;
    if o != p {
      assert WeakRefOk(s.heap.objs, p);
      assert o in s.heap.objs && s.heap.objs[o].owners != multiset{};
      NotDeadIsLive(s, o);
    }
  }

  lemma BorrowedIsLive(s: State, t: nat, i: nat)
    requires Inv(s) && t < |s.thr| && i in s.thr[t].guards
    ensures LiveOrRisky(s, s.thr[t].guards[i])
  {
    assert ThreadOk(s.heap.objs, s.thr[t]) && GuardOk(s.heap.objs, s.thr[t], i);
    NotDeadIsLive(s, s.thr[t].guards[i]);
  }

  lemma OwnedIsLive(s: State, o: ObjId)
    requires Inv(s) && Owned(s.heap, o)
    ensures LiveOrRisky(s, o)
  {
    NotDeadIsLive(s, o);
  }

  /** Whoever can reach the data of an object finds it there. */
  lemma AccessibleIsLive(s: State, p: ObjId)
    requires Inv(s) && Accessible(s, p)
    ensures LiveOrRisky(s, p)
  {
    if Owned(s.heap, p) {
      OwnedIsLive(s, p);
    } else {
      var t, i :| 0 <= t < |s.thr| && i in s.thr[t].guards && s.thr[t].guards[i] == p;
      BorrowedIsLive(s, t, i);
    }
  }

  lemma OwedIsLive(s: State, o: ObjId, from: Place)
    requires Inv(s) && o in s.heap.objs && from in s.heap.objs[o].owed
    ensures LiveOrRisky(s, o)
  {
    assert PinOk(s.heap, o, from);
    OwnedIsLive(s, o);
  }

  lemma ReaderTouchesLive(s: State, a: Action, o: ObjId)
    requires Inv(s) && Enabled(s, a) && Mover(a).Some? && o in Touched(s, a)
    ensures LiveOrRisky(s, o)
  {
    if a.IncrementLoaded? {
      assert ThreadOk(s.heap.objs, s.thr[a.t]);
      NotDeadIsLive(s, o);
    } else if ReaderLoc(s.thr[a.t], a).value.BackRef? {
      OwnedIsLive(s, o);
    } else {
      AccessibleIsLive(s, o);
    }
  }

  lemma HandleTouchesLive(s: State, a: Action, o: ObjId)
    requires Inv(s) && Enabled(s, a) && o in Touched(s, a)
    requires a.Move? || a.Drop? || a.Swap? || a.Install? || a.Destroy?
    ensures LiveOrRisky(s, o)
  {
    if (a.Drop? && o == a.o) || a.Destroy? {
      OwnedIsLive(s, o);
    } else {
      AccessibleIsLive(s, o);
    }
  }

  lemma OwnerTouchesLive(s: State, a: Action, o: ObjId)
    requires Inv(s) && Enabled(s, a) && o in Touched(s, a)
    requires a.Clone? || a.Deref? || a.Downgrade? || a.Compensate?
    ensures LiveOrRisky(s, o)
  {
    if a.Compensate? {
      OwedIsLive(s, o, a.from);
    } else {
      OwnedIsLive(s, o);
    }
  }

  lemma BorrowerTouchesLive(s: State, a: Action, o: ObjId)
    requires Inv(s) && Enabled(s, a) && o in Touched(s, a) && (a.CloneGuard? || a.DerefGuard?)
    ensures LiveOrRisky(s, o)
  {
    BorrowedIsLive(s, a.t, a.i);
  }

  /** No step of any run touches a freed object, except one judged while a count for it was owed. */
  lemma NoUseAfterFree(s: State, a: Action, o: ObjId)
    requires Reachable(s) && Enabled(s, a) && o in Touched(s, a)
    ensures Live(s, o) || o in s.history.risky
  {
    ReachableInv(s);
    if Mover(a).Some? {
      ReaderTouchesLive(s, a, o);
    } else if a.Move? || a.Drop? || a.Swap? || a.Install? || a.Destroy? {
      HandleTouchesLive(s, a, o);
    } else if a.Clone? || a.Deref? || a.Downgrade? || a.Compensate? {
      OwnerTouchesLive(s, a, o);
    } else if a.CloneGuard? || a.DerefGuard? {
      BorrowerTouchesLive(s, a, o);
    } else if a.Collect? {
      CollectTouchesLive(s, o);
    }
  }

  // ----- for ever

  lemma StepOf(run: seq<State>, k: nat) returns (a: Action)
    requires IsRun(run) && 0 < k < |run|
    ensures Inv(run[k - 1]) && Enabled(run[k - 1], a) && run[k] == Do(run[k - 1], a)
  {
    RunInv(run, k - 1);
    assert NextAt(run, k - 1);
    a :| Enabled(run[k - 1], a) && run[k] == Do(run[k - 1], a);
  }

  lemma DeadStep(s: State, a: Action, o: ObjId)
    requires Inv(s) && Enabled(s, a) && Dead(s, o)
    ensures Dead(Do(s, a), o) && Do(s, a).heap.objs[o].addr == s.heap.objs[o].addr
    ensures s.heap.objs[o].life.Freed? ==> Do(s, a).heap.objs[o].life.Freed?
  {
    DeadStays(s, a, o);
    ObjectEvolves(s.heap, HeapOpOf(s, a), o);
  }

  lemma DeadRunStep(run: seq<State>, j: nat, o: ObjId)
    requires IsRun(run) && 0 < j < |run| && Dead(run[j - 1], o)
    ensures Dead(run[j], o) && run[j].heap.objs[o].addr == run[j - 1].heap.objs[o].addr
    ensures run[j - 1].heap.objs[o].life.Freed? ==> run[j].heap.objs[o].life.Freed?
  {
    var a := StepOf(run, j);
    DeadStep(run[j - 1], a, o);
  }

  /** Dead stays dead and freed stays freed: no object is revived or freed twice, even if its address is reused. */
  lemma {:induction false} DeadForEver(run: seq<State>, i: nat, j: nat, o: ObjId)
    requires IsRun(run) && i <= j < |run| && Dead(run[i], o)
    ensures Dead(run[j], o)
    ensures run[i].heap.objs[o].life.Freed? ==> run[j].heap.objs[o].life.Freed?
    ensures run[j].heap.objs[o].addr == run[i].heap.objs[o].addr
    decreases j - i
  {
    if i < j {
      DeadForEver(run, i, j - 1, o);
      DeadRunStep(run, j, o);
    }
  }

  // ----- conservation and the collector's assertions

  /** The shards of an object add up to its handles, less the counts owed; a cell holds one handle. */
  lemma OwnershipConserved(s: State, o: ObjId)
    requires Reachable(s) && o in s.heap.objs
    ensures Sum(s.heap.objs[o].ctr) == |s.heap.objs[o].owners| - |s.heap.objs[o].owed|
    ensures Sum(s.heap.objs[o].ctr) == |s.heap.objs[o].owners| <==> s.heap.objs[o].owed == multiset{}
    ensures s.heap.objs[o].owners == multiset{} ==> Sum(s.heap.objs[o].ctr) == 0
    ensures forall c: nat :: s.heap.objs[o].owners[InCell(c)] == if c in s.heap.cells && s.heap.cells[c] == o then 1 else 0
  {
    ReachableInv(s);
    assert CountOk(s.heap, o);
    if s.heap.objs[o].owners == multiset{} {
      UnownedOwesNothing(s.heap, o);
    }
    forall c: nat
      ensures s.heap.objs[o].owners[InCell(c)] == if c in s.heap.cells && s.heap.cells[c] == o then 1 else 0
    {
      assert CellOk(s.heap, o, c);
    }
  }

  /**
   A finished re-check without a tag has a sum of at least what the object's shards held at the
   fence of its pass: the handles there were, unless counts were owed.
   */
  lemma ReCheckSum(s: State)
    requires Reachable(s) && s.col.pc.ReSum? && s.col.pc.o in s.heap.objs
    requires s.col.pc.k == |s.heap.objs[s.col.pc.o].ctr|
    ensures s.col.pc.o in s.history.fence
    ensures var f := s.history.fence[s.col.pc.o];
      && |f.owners| - |f.owed| <= s.col.pc.acc
      && (f.owed == multiset{} ==> 0 <= |f.owners| <= s.col.pc.acc)
  {
    ReachableInv(s);
    ReSumEnds(s, s.col.pc.o, s.col.pc.k, s.col.pc.acc);
  }

  /** `update_state` never meets an object that is ready to be freed, and `free` only such ones. */
  lemma UpdateNeverReady(s: State, o: ObjId)
    requires Reachable(s) && o in s.heap.objs
    ensures s.col.pc.Choosing? && o !in s.col.visited ==> !s.heap.objs[o].life.ReadyToFree?
    ensures s.col.pc.Resting? || s.col.pc.Scanning? ==> !s.heap.objs[o].life.ReadyToFree?
  {
    ReachableInv(s);
    assert LifeOk(s, o);
  }

  // ----- weak references

  /** `WeakSdarcInner` outlives the object it belongs to; when it dies its back reference is null. */
  lemma WeakInnerLifetime(s: State, o: ObjId, w: ObjId)
    requires Reachable(s) && o in s.heap.objs && s.heap.objs[o].weak == Some(w)
    requires o !in s.history.risky && w !in s.history.risky
    ensures w in s.heap.objs
    ensures !s.heap.objs[o].life.Freed? ==> !s.heap.objs[w].life.Freed? && !s.heap.objs[w].life.ReadyToFree?
    ensures s.heap.objs[w].life.ReadyToFree? || s.heap.objs[w].life.Freed? ==> s.heap.objs[w].backRef.None?
  {
    ReachableInv(s);
    assert WeakRefOk(s.heap.objs, o) && LifeOk(s, w) && LifeOk(s, o);
  }

  lemma BackRefStep(s: State, a: Action, w: ObjId)
    requires Enabled(s, a) && w in s.heap.objs && s.heap.objs[w].backRef.None?
    ensures w in Do(s, a).heap.objs && Do(s, a).heap.objs[w].backRef.None?
  {
    ObjectEvolves(s.heap, HeapOpOf(s, a), w);
  }

  lemma BackRefRunStep(run: seq<State>, j: nat, w: ObjId)
    requires IsRun(run) && 0 < j < |run| && w in run[j - 1].heap.objs && run[j - 1].heap.objs[w].backRef.None?
    ensures w in run[j].heap.objs && run[j].heap.objs[w].backRef.None?
  {
    var a := StepOf(run, j);
    BackRefStep(run[j - 1], a, w);
  }

  /** Once cleared, a back reference stays null. */
  lemma {:induction false} BackRefNeverReturns(run: seq<State>, i: nat, j: nat, w: ObjId)
    requires IsRun(run) && i <= j < |run| && w in run[i].heap.objs && run[i].heap.objs[w].backRef.None?
    ensures w in run[j].heap.objs && run[j].heap.objs[w].backRef.None?
    decreases j - i
  {
    if i < j {
      BackRefNeverReturns(run, i, j - 1, w);
      BackRefRunStep(run, j, w);
    }
  }

  // ----- hazard pointers and the asymmetric fence

  /**
   Between two operations a thread's non-null slots are exactly those of its live guards and hold
   their addresses; without guards its record can be released.
   */
  lemma HazardBookkeeping(s: State, t: nat, i: nat)
    requires Reachable(s) && t < |s.thr| && s.thr[t].pc.Idle? && i < SLOTS
    ensures var x := s.thr[t]; var view := Drain(x.sig);
      && |view.slots| == SLOTS && !view.flag
      && (view.slots[i].Some? <==> i in x.guards)
      && (i in x.guards ==> x.guards[i] in s.heap.objs && view.slots[i] == Some(s.heap.objs[x.guards[i]].addr))
  {
    ReachableInv(s);
    assert ThreadOk(s.heap.objs, s.thr[t]);
    assert GuardOk(s.heap.objs, s.thr[t], i) && SlotOk(s.heap.objs, s.thr[t], i);
  }

  /**
   The handover at a heavy fence, for every object that was abandoned at the fence and that nobody
   has acquired since, tags or no tags. Either the reader's signal is in memory, where the
   traversal of this pass sees it or has seen it, or the reader has not loaded `o` and no
   location can give it `o` any more.
   */
  lemma FenceHandover(s: State, t: nat, o: ObjId)
    requires Reachable(s) && Abandoned(s, o) && o !in s.history.acquired && t < |s.thr|
    ensures o in s.heap.objs && forall loc :: ReadLoc(s.heap, loc) != Some(o)
    ensures s.thr[t].pc == Loaded(o) ==> t < s.col.limit && s.thr[t].sig.flag && !PastFlag(s.col, t)
    ensures forall i :: i in s.thr[t].guards && s.thr[t].guards[i] == o ==>
      && t < s.col.limit && i < |s.thr[t].sig.slots| && s.thr[t].sig.slots[i] == Some(s.heap.objs[o].addr)
      && (PastSlot(s.col, t, i) ==> s.heap.objs[o].addr in s.col.hazards)
  {
    ReachableInv(s);
    assert FenceOk(s, o) && HiddenOk(s, o) && ReaderSettled(s, t, o);
    forall loc ensures ReadLoc(s.heap, loc) != Some(o) { Unreadable(s.heap, o, loc); }
    forall i | i in s.thr[t].guards && s.thr[t].guards[i] == o ensures GuardSettled(s, t, i, o) {}
  }

  /** The heavy fence makes every signal issued before it visible. */
  lemma FencePublishes(s: State, t: nat, i: nat)
    requires Reachable(s) && Enabled(s, HeavyFence) && t < |s.thr|
    ensures var x, x' := s.thr[t], Do(s, HeavyFence).thr[t];
      && (InCriticalSection(x.pc) ==> x'.sig.flag)
      && (i in x.guards ==> i < SLOTS && |x'.sig.slots| == SLOTS && x.guards[i] in s.heap.objs
                            && x'.sig.slots[i] == Some(s.heap.objs[x.guards[i]].addr))
      && (x.pc.Published? ==> |x'.sig.slots| == SLOTS && x.pc.slot < SLOTS
                              && x'.sig.slots[x.pc.slot] == Some(x.pc.addr))
  {
    ReachableInv(s);
    var x := s.thr[t];
    assert ThreadOk(s.heap.objs, x) && GuardOk(s.heap.objs, x, i) && SlotOk(s.heap.objs, x, i);
    if x.pc.Published? {
      assert GuardOk(s.heap.objs, x, x.pc.slot) && SlotOk(s.heap.objs, x, x.pc.slot);
    }
  }
}
