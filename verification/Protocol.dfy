/**
 The reclamation protocol as a step system: unbounded threads, objects, shards and cells, one
 atomic access a step, in any interleaving.
 */
module Protocol {
  import opened Options
  import opened Counters
  import opened Signals
  import opened Heap

  /** An atomic pointer a reader can load from. */
  datatype Loc = Cell(c: nat) | BackRef(w: ObjId)

  /** Where a thread stands inside `borrow` or `load_owned`. */
  datatype Pc =
    | Idle
    | PreLoaded(loc: Loc, addr: nat)
    | Published(loc: Loc, addr: nat, slot: nat)
    | FallBack(loc: Loc)
    | Entered(loc: Loc)
    | Loaded(o: ObjId)
    | Leaving

  /** A thread, its hazard record, and the borrow guards it holds, by hazard slot. */
  datatype Thread = Thread(sig: Signals, pc: Pc, guards: map<nat, ObjId>)

  datatype CollectorPc =
    | Resting                                 // between two passes
    | Scanning(r: nat, i: nat)                // about to read slot `i` of record `r`, or to poll its flag
    | Choosing                                // about to visit some tracked object
    | PreSum(o: ObjId, k: nat, acc: int)
    | ClearSum(o: ObjId, k: nat, acc: int)
    | ReSum(o: ObjId, k: nat, acc: int)
    | ClearingWeak(o: ObjId)
    | Freeing

  datatype Collector = Collector(
    pc: CollectorPc,
    hazards: set<nat>,      // addresses found in this pass
    limit: nat,             // records that existed when the traversal of this pass began
    visited: set<ObjId>)    // objects whose tags were cleared, or whose update ended, in this pass

  datatype State = State(
    heap: Heap,
    thr: seq<Thread>,
    col: Collector,
    homes: map<nat, ObjId>,      // the object whose data an atomic cell is part of, if any
    history: History)

  /** What has happened, for proofs only: no step depends on it. */
  datatype History = History(
    fence: map<ObjId, Obj>,      // the objects as they were at the last heavy fence
    acquired: set<ObjId>,        // objects that a count was added for since, other than one owed
    risky: set<ObjId>,           // objects judged ready in a pass at whose fence counts for them were owed
    seen: map<ObjId, seq<int>>)  // what the last tag-clearing scan of an object has read so far

  ghost predicate Init(s: State) {
    && s.heap.shards > 0 && s.heap.objs == map[] && s.heap.cells == map[]
    && s.thr == []
    && s.col == Collector(Resting, {}, 0, {})
    && s.history == History(map[], {}, {}, map[])
  }

  datatype Action =
    // handles
    | Register
    | New(t: nat, o: ObjId, addr: nat, shard: nat)
    | Submit(o: ObjId)
    | Clone(t: nat, o: ObjId, shard: nat)
    | CloneGuard(t: nat, i: nat, shard: nat)
    | Move(o: ObjId, place: Place, to: Place)
    | Drop(o: ObjId, place: Place, shard: nat)
    | Swap(t: nat, c: nat, new_: Option<ObjId>)
    | Install(t: nat, c: nat, o: ObjId, from: Place)       // the two accesses of `compare_and_set`,
    | Compensate(o: ObjId, from: Place, shard: nat)        // which borrows the handle at `from`
    | Destroy(op: HeapOp)                                  // a destructor gives up what its object held
    | Downgrade(t: nat, o: ObjId, w: ObjId, addr: nat, shard: nat)
    | Deref(o: ObjId)
    | DerefGuard(t: nat, i: nat)
    // readers
    | BeginLoad(t: nat, loc: Loc)
    | Load(t: nat)
    | IncrementLoaded(t: nat, shard: nat)
    | Leave(t: nat)
    | PreLoad(t: nat, loc: Loc)
    | Publish(t: nat)
    | ReLoad(t: nat)
    | Unborrow(t: nat, i: nat)
    | Flush(t: nat)
    // collector
    | Take(o: ObjId)
    | HeavyFence
    | SeeRecords                                           // records pushed since the fence are seen, too
    | Collect
    | Visit(o: ObjId)
    | StartFreeing
    | Free(o: ObjId)
    | EndPass

  function ReadLoc(h: Heap, loc: Loc): Option<ObjId> {
    match loc
    case Cell(c) => if c in h.cells then Some(h.cells[c]) else None
    case BackRef(w) => if w in h.objs then h.objs[w].backRef else None
  }

  /** A back reference is read through a `WeakSdarc`, which someone holds for the whole call. */
  predicate LocHeld(h: Heap, loc: Loc) { loc.BackRef? ==> Owned(h, loc.w) }

  /** Someone holds a handle to `p` or borrows it, so the data of `p` can be reached. */
  ghost predicate Accessible(s: State, p: ObjId) {
    || Owned(s.heap, p)
    || exists t, i :: 0 <= t < |s.thr| && i in s.thr[t].guards && s.thr[t].guards[i] == p
  }

  /** Data is moved, dropped or borrowed in place only through a handle to its object or a borrow of it. */
  ghost predicate PlaceReachable(s: State, place: Place) { place.InObject? ==> Accessible(s, place.p) }

  ghost predicate CellReachable(s: State, c: nat) { c in s.homes ==> Accessible(s, s.homes[c]) }

  /** The location that a reader's step is about. */
  function ReaderLoc(x: Thread, a: Action): Option<Loc> {
    match a
    case BeginLoad(_, loc) => Some(loc)
    case PreLoad(_, loc) => Some(loc)
    case Load(_) => if x.pc.Entered? then Some(x.pc.loc) else None
    case ReLoad(_) => if x.pc.Published? then Some(x.pc.loc) else None
    case _ => None
  }

  ghost predicate LocReachable(s: State, x: Thread, a: Action) {
    var loc := ReaderLoc(x, a);
    loc.Some? && loc.value.Cell? ==> CellReachable(s, loc.value.c)
  }

  predicate IsFreed(h: Heap, p: ObjId) { p in h.objs && h.objs[p].life.Freed? }

  /** Freeing runs a destructor: it drops or moves out handles in its object's data and empties cells there. */
  ghost predicate InDestructor(s: State, op: HeapOp) {
    match op
    case Release(_, place, _) => (place.InObject? || place.InWeakRef?) && IsFreed(s.heap, place.p)
    case Relocate(_, place, to) => place.InObject? && IsFreed(s.heap, place.p) && PlaceReachable(s, to)
    case Exchange(_, c, new_) => c in s.homes && IsFreed(s.heap, s.homes[c]) && new_.None?
    case _ => false
  }

  /** The first slot that the thread itself sees as null. */
  function FirstNull(slots: seq<Option<nat>>, i: nat): (r: Option<nat>)
    requires i <= |slots|
    ensures r.Some? ==> i <= r.value < |slots| && slots[r.value].None?
    ensures r.Some? ==> forall k :: i <= k < r.value ==> slots[k].Some?
    ensures r.None? ==> forall k :: i <= k < |slots| ==> slots[k].Some?
    decreases |slots| - i
  {
    if i == |slots| then None
    else if slots[i].None? then Some(i)
    else FirstNull(slots, i + 1)
  }

  predicate InCriticalSection(pc: Pc) { pc.Entered? || pc.Loaded? || pc.Leaving? }

  /** The thread whose record or program counter a step changes. */
  function Mover(a: Action): Option<nat> {
    match a
    case BeginLoad(t, _) => Some(t)
    case Load(t) => Some(t)
    case IncrementLoaded(t, _) => Some(t)
    case Leave(t) => Some(t)
    case PreLoad(t, _) => Some(t)
    case Publish(t) => Some(t)
    case ReLoad(t) => Some(t)
    case Unborrow(t, _) => Some(t)
    case Flush(t) => Some(t)
    case _ => None
  }

  // ----- which steps are possible

  ghost predicate Guard(s: State, a: Action) {
    match a
    case Register => true
    case New(_, _, _, _) => true
    case Submit(o) => o in s.heap.objs && s.heap.objs[o].life.Unsubmitted?
    case Clone(_, o, _) => Owned(s.heap, o)
    case CloneGuard(t, i, _) => t < |s.thr| && i in s.thr[t].guards
    case Move(_, place, to) => PlaceReachable(s, place) && PlaceReachable(s, to)
    case Drop(_, place, _) => !place.InWeakRef? && PlaceReachable(s, place)
    case Swap(_, c, _) => CellReachable(s, c)
    case Install(_, c, _, from) => CellReachable(s, c) && PlaceReachable(s, from)
    case Compensate(_, _, _) => true
    case Destroy(op) => InDestructor(s, op)
    case Downgrade(_, _, _, _, _) => true
    case Deref(o) => Owned(s.heap, o)
    case DerefGuard(t, i) => t < |s.thr| && i in s.thr[t].guards
    case Take(o) => s.col.pc.Resting? && o in s.heap.objs && s.heap.objs[o].life.Pending?
    case HeavyFence => s.col.pc.Resting?
    case SeeRecords => s.col.pc.Scanning?
    case Collect => CanCollect(s)
    case Visit(o) =>
      && s.col.pc.Choosing? && o in s.heap.objs && o !in s.col.visited
      && (s.heap.objs[o].life.DefaultState? || s.heap.objs[o].life.RequiresReChecking?)
    case StartFreeing => s.col.pc.Choosing?
    case Free(o) => s.col.pc.Freeing? && o in s.heap.objs && s.heap.objs[o].life.ReadyToFree?
    case EndPass => s.col.pc.Freeing? && forall o :: o in s.heap.objs ==> !s.heap.objs[o].life.ReadyToFree?
    case _ =>
      && Mover(a).Some? && Mover(a).value < |s.thr| && CanMove(s.heap, s.thr[Mover(a).value], a)
      && LocReachable(s, s.thr[Mover(a).value], a)
  }

  predicate CanMove(h: Heap, x: Thread, a: Action) {
    match a
    case BeginLoad(_, loc) => LocHeld(h, loc) && (x.pc.Idle? || x.pc == FallBack(loc))
    case Load(_) => x.pc.Entered? && LocHeld(h, x.pc.loc)
    case IncrementLoaded(_, _) => x.pc.Loaded?
    case Leave(_) => x.pc.Leaving?
    case PreLoad(_, loc) => x.pc.Idle? && LocHeld(h, loc)
    case Publish(_) => x.pc.PreLoaded?
    case ReLoad(_) => x.pc.Published? && LocHeld(h, x.pc.loc)
    case Unborrow(_, i) => x.pc.Idle? && i in x.guards
    case Flush(_) => x.sig.buf != []
    case _ => false
  }

  predicate CanCollect(s: State) {
    match s.col.pc
    case Scanning(r, i) => r < s.col.limit ==> r < |s.thr|
    case PreSum(o, k, _) => o in s.heap.objs
    case ClearSum(o, k, _) => o in s.heap.objs
    case ReSum(o, k, _) => o in s.heap.objs
    case ClearingWeak(o) => o in s.heap.objs
    case _ => false
  }

  // ----- what a step does to the shared heap

  ghost function HeapOpOf(s: State, a: Action): HeapOp {
    if !Guard(s, a) then Nop else
    match a
    case New(t, o, addr, shard) => Create(t, o, addr, shard)
    case Submit(o) => SetLife(o, Pending)
    case Clone(t, o, shard) => Acquire(o, InThread(t), shard)
    case CloneGuard(t, i, shard) => Acquire(s.thr[t].guards[i], InThread(t), shard)
    case Move(o, place, to) => Relocate(o, place, to)
    case Drop(o, place, shard) => Release(o, place, shard)
    case Swap(t, c, new_) => Exchange(t, c, new_)
    case Install(t, c, o, from) => HeapOp.Install(t, c, o, from)
    case Compensate(o, from, shard) => HeapOp.Compensate(o, from, shard)
    case Destroy(op) => op
    case Downgrade(t, o, w, addr, shard) => InitWeak(o, w, addr, shard)
    case IncrementLoaded(t, shard) => Acquire(s.thr[t].pc.o, InThread(t), shard)
    case Take(o) => SetLife(o, DefaultState)
    case Collect => CollectOp(s)
    case Visit(o) => if s.heap.objs[o].addr in s.col.hazards then SetLife(o, DefaultState) else Nop
    case Free(o) => SetLife(o, Freed)
    case _ => Nop
  }

  /** The access the collector makes in the update of one object. */
  function CollectOp(s: State): HeapOp
    requires CanCollect(s)
  {
    var objs := s.heap.objs;
    match s.col.pc
    case PreSum(o, k, acc) =>
      if k < |objs[o].ctr| || acc == 0 then Nop else SetLife(o, DefaultState)
    case ClearSum(o, k, acc) =>
      if k < |objs[o].ctr| then Untag(o, k)
      else SetLife(o, if acc == 0 then RequiresReChecking else DefaultState)
    case ReSum(o, k, acc) =>
      if k < |objs[o].ctr| then (if objs[o].ctr[k].tag then SetLife(o, DefaultState) else Nop)
      else if acc == 0 then Nop else SetLife(o, DefaultState)
    case ClearingWeak(o) =>
      if HasBackRef(objs, o) then CutBackRef(objs[o].weak.value) else SetLife(o, ReadyToFree)
    case _ => Nop
  }

  // ----- what a step does to the thread that takes it

  function ThreadAfter(h: Heap, x: Thread, a: Action): Thread
    requires CanMove(h, x, a)
  {
    match a
    case BeginLoad(_, loc) => x.(sig := Issue(x.sig, FlagStore(true)), pc := Entered(loc))
    case Load(_) =>
      var p := ReadLoc(h, x.pc.loc);
      x.(pc := if p.Some? then Loaded(p.value) else Leaving)
    case IncrementLoaded(_, _) => x.(pc := Leaving)
    case Leave(_) => x.(sig := Issue(x.sig, FlagStore(false)), pc := Idle)
    case PreLoad(_, loc) =>
      var p := ReadLoc(h, loc);
      if p.Some? && p.value in h.objs then x.(pc := PreLoaded(loc, h.objs[p.value].addr)) else x
    case Publish(_) =>
      var slot := FirstNull(Drain(x.sig).slots, 0);
      if slot.None? then x.(pc := FallBack(x.pc.loc))
      else x.(sig := Issue(x.sig, SlotStore(slot.value, Some(x.pc.addr))),
              pc := Published(x.pc.loc, x.pc.addr, slot.value))
    case ReLoad(_) =>
      var p := ReadLoc(h, x.pc.loc);
      if p.Some? && p.value in h.objs && h.objs[p.value].addr == x.pc.addr then
        x.(pc := Idle, guards := x.guards[x.pc.slot := p.value])
      else
        x.(sig := Issue(x.sig, SlotStore(x.pc.slot, None)), pc := FallBack(x.pc.loc))
    case Unborrow(_, i) => x.(sig := Issue(x.sig, SlotStore(i, None)), guards := x.guards - {i})
    case Flush(_) => x.(sig := FlushOne(x.sig))
    case _ => x
  }

  ghost function ThreadsAfter(s: State, a: Action): seq<Thread> {
    if !Guard(s, a) then s.thr
    else if Mover(a).Some? then s.thr[Mover(a).value := ThreadAfter(s.heap, s.thr[Mover(a).value], a)]
    else if a.Register? then s.thr + [Thread(Silent, Idle, map[])]
    else if a.HeavyFence? then
      seq(|s.thr|, t requires 0 <= t < |s.thr| => s.thr[t].(sig := Drain(s.thr[t].sig)))
    else s.thr
  }

  // ----- what a step does to the collector's own state

  ghost function CollectorAfter(s: State, a: Action): Collector {
    if !Guard(s, a) then s.col else
    match a
    case HeavyFence => Collector(Scanning(0, 0), {}, |s.thr|, {})
    case SeeRecords => s.col.(limit := |s.thr|)
    case Collect => AfterCollect(s)
    case Visit(o) =>
      if s.heap.objs[o].addr in s.col.hazards then Done(s.col, o)
      else s.col.(pc := if s.heap.objs[o].life.DefaultState? then PreSum(o, 0, 0) else ReSum(o, 0, 0))
    case StartFreeing => s.col.(pc := Freeing)
    case EndPass => s.col.(pc := Resting)
    case _ => s.col
  }

  /** The update of `o` in this pass is over. */
  function Done(col: Collector, o: ObjId): Collector {
    col.(pc := Choosing, visited := col.visited + {o})
  }

  function AfterCollect(s: State): Collector
    requires CanCollect(s)
  {
    var objs := s.heap.objs;
    match s.col.pc
    case Scanning(r, i) =>
      if r >= s.col.limit then s.col.(pc := Choosing)
      else if i < |s.thr[r].sig.slots| then
        var a := s.thr[r].sig.slots[i];
        s.col.(pc := Scanning(r, i + 1),
               hazards := if a.Some? then s.col.hazards + {a.value} else s.col.hazards)
      else if s.thr[r].sig.flag then s.col   // keep polling
      else s.col.(pc := Scanning(r + 1, 0))
    case PreSum(o, k, acc) =>
      if k < |objs[o].ctr| then s.col.(pc := PreSum(o, k + 1, acc + objs[o].ctr[k].n))
      else if acc == 0 then s.col.(pc := ClearSum(o, 0, 0), visited := s.col.visited + {o})
      else Done(s.col, o)
    case ClearSum(o, k, acc) =>
      if k < |objs[o].ctr| then s.col.(pc := ClearSum(o, k + 1, acc + objs[o].ctr[k].n))
      else Done(s.col, o)
    case ReSum(o, k, acc) =>
      if k < |objs[o].ctr| then
        if objs[o].ctr[k].tag then Done(s.col, o)
        else s.col.(pc := ReSum(o, k + 1, acc + objs[o].ctr[k].n))
      else if acc == 0 then s.col.(pc := ClearingWeak(o))
      else Done(s.col, o)
    case ClearingWeak(o) => Done(s.col, o)
  }

  // ----- what is remembered of a step

  ghost function HistoryAfter(s: State, a: Action): History {
    var y, op := s.history, HeapOpOf(s, a);
    if a.HeavyFence? then y.(fence := s.heap.objs, acquired := {})
    else if op.Acquire? then y.(acquired := y.acquired + {op.o})
    else if op.SetLife? && op.life.ReadyToFree? && op.o in y.fence && y.fence[op.o].owed != multiset{} then
      y.(risky := y.risky + {op.o})
    else if op.Untag? && op.o in s.heap.objs && op.k < |s.heap.objs[op.o].ctr| then
      y.(seen := y.seen[op.o := SeenBefore(y, op.o, op.k) + [s.heap.objs[op.o].ctr[op.k].n]])
    else y
  }

  /** What the scan has read of `o`; a scan begins with shard 0. */
  function SeenBefore(y: History, o: ObjId, k: nat): seq<int> {
    if k > 0 && o in y.seen then y.seen[o] else []
  }

  // ----- steps and runs

  /** As a value and not a predicate: proofs then look the guard up where they need it. */
  datatype Verdict = Yes | No

  ghost function MayTake(s: State, a: Action): Verdict {
    if Guard(s, a) && Ok(s.heap, HeapOpOf(s, a)) then Yes else No
  }

  ghost predicate Enabled(s: State, a: Action) { MayTake(s, a).Yes? }

  /** Total for convenience: runs take enabled steps only. */
  ghost function Do(s: State, a: Action): State {
    if !Enabled(s, a) then s
    else State(Apply(s.heap, HeapOpOf(s, a)), ThreadsAfter(s, a), CollectorAfter(s, a), s.homes, HistoryAfter(s, a))
  }

  ghost predicate Next(s: State, s': State) {
    exists a :: Enabled(s, a) && s' == Do(s, a)
  }

  ghost predicate NextAt(run: seq<State>, k: nat)
    requires k + 1 < |run|
  {
    Next(run[k], run[k + 1])
  }

  ghost predicate IsRun(run: seq<State>) {
    && run != []
    && Init(run[0])
    && forall k {:trigger NextAt(run, k)} :: 0 <= k < |run| - 1 ==> NextAt(run, k)
  }

  ghost predicate Reachable(s: State) {
    exists run :: IsRun(run) && run[|run| - 1] == s
  }
}
