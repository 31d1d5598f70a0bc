/**
 What a call returns when nothing comes in between: handles, cells, loads and borrows. Each lemma
 says that the call's steps can be taken, and what has changed when it returns.
 */
module Calls {
  import opened Options
  import opened Counters
  import opened Signals
  import opened Heap
  import opened HeapEffects
  import opened Protocol
  import opened ReaderInvariant
  import opened FreeSafety

  ghost predicate StepAt(path: seq<State>, acts: seq<Action>, k: nat)
    requires k < |acts| && k + 1 < |path|
  {
    Enabled(path[k], acts[k]) && path[k + 1] == Do(path[k], acts[k])
  }

  ghost predicate IsTrace(path: seq<State>, s: State, acts: seq<Action>, s': State) {
    && |path| == |acts| + 1 && path[0] == s && path[|acts|] == s'
    && forall k {:trigger StepAt(path, acts, k)} :: 0 <= k < |acts| ==> StepAt(path, acts, k)
  }

  /** The steps of `acts` can be taken one after the other, and lead from `s` to `s'`. */
  ghost predicate Steps(s: State, acts: seq<Action>, s': State) { exists path :: IsTrace(path, s, acts, s') }

  lemma StepsOne(s: State, a: Action)
    requires Enabled(s, a)
    ensures Steps(s, [a], Do(s, a))
  {
    var path := [s, Do(s, a)];
    assert StepAt(path, [a], 0);
    assert IsTrace(path, s, [a], Do(s, a));
  }

  lemma TracesJoin(p: seq<State>, s: State, acts: seq<Action>, m: State, q: seq<State>, more: seq<Action>, s': State)
    requires IsTrace(p, s, acts, m) && IsTrace(q, m, more, s')
    ensures IsTrace(p + q[1..], s, acts + more, s')
  {
    var r := p + q[1..];
    forall k | 0 <= k < |acts + more| ensures StepAt(r, acts + more, k) {
      if k < |acts| {
        assert StepAt(p, acts, k);
      } else {
        assert StepAt(q, more, k - |acts|);
        assert r[k] == q[k - |acts|] && r[k + 1] == q[k - |acts| + 1];
      }
    }
  }

  lemma StepsAppend(s: State, acts: seq<Action>, m: State, more: seq<Action>, s': State)
    requires Steps(s, acts, m) && Steps(m, more, s')
    ensures Steps(s, acts + more, s')
  {
    var p :| IsTrace(p, s, acts, m);
    var q :| IsTrace(q, m, more, s');
    TracesJoin(p, s, acts, m, q, more, s');
  }

  lemma StepsTwo(s: State, a: Action, m: State, b: Action, s': State)
    requires Enabled(s, a) && m == Do(s, a) && Enabled(m, b) && s' == Do(m, b)
    ensures Steps(s, [a, b], s')
  {
    StepsOne(s, a);
    StepsOne(m, b);
    StepsAppend(s, [a], m, [b], s');
    assert [a] + [b] == [a, b];
  }

  /** Only the heap has changed. */
  predicate OnlyHeap(s: State, s': State) { s'.thr == s.thr && s'.col == s.col && s'.homes == s.homes }

  /** Of the threads, only `t` has changed. */
  predicate OnlyThread(s: State, s': State, t: nat) {
    && t < |s.thr| && |s'.thr| == |s.thr| && s'.col == s.col && s'.homes == s.homes
    && forall u :: 0 <= u < |s.thr| && u != t ==> s'.thr[u] == s.thr[u]
  }

  // ----- handles

  lemma NewCall(s: State, t: nat, o: ObjId, addr: nat, shard: nat)
    requires o !in s.heap.objs && AddrFree(s.heap, addr) && shard < s.heap.shards
    ensures Enabled(s, New(t, o, addr, shard)) && OnlyHeap(s, Do(s, New(t, o, addr, shard)))
    ensures Created(s.heap, Do(s, New(t, o, addr, shard)).heap, t, o, addr)
  {
    CreateEffect(s.heap, t, o, addr, shard);
  }

  /** Every object has a counter on every shard. */
  lemma HasShards(s: State, o: ObjId)
    requires Reachable(s) && o in s.heap.objs
    ensures |s.heap.objs[o].ctr| == s.heap.shards > 0
  {
    ReachableInv(s);
    assert CountOk(s.heap, o);
  }

  lemma CloneCall(s: State, t: nat, o: ObjId, shard: nat)
    requires Reachable(s) && Owned(s.heap, o) && shard < s.heap.shards
    ensures Enabled(s, Clone(t, o, shard)) && OnlyHeap(s, Do(s, Clone(t, o, shard)))
    ensures Acquired(s.heap, Do(s, Clone(t, o, shard)).heap, o, InThread(t))
  {
    HasShards(s, o);
    AcquireEffect(s.heap, o, InThread(t), shard);
  }

  lemma CloneGuardCall(s: State, t: nat, i: nat, shard: nat)
    requires Reachable(s) && t < |s.thr| && i in s.thr[t].guards && shard < s.heap.shards
    ensures Enabled(s, CloneGuard(t, i, shard)) && OnlyHeap(s, Do(s, CloneGuard(t, i, shard)))
    ensures Acquired(s.heap, Do(s, CloneGuard(t, i, shard)).heap, s.thr[t].guards[i], InThread(t))
  {
    ReachableInv(s);
    assert ThreadOk(s.heap.objs, s.thr[t]) && GuardOk(s.heap.objs, s.thr[t], i);
    HasShards(s, s.thr[t].guards[i]);
    AcquireEffect(s.heap, s.thr[t].guards[i], InThread(t), shard);
  }

  lemma MoveCall(s: State, o: ObjId, place: Place, to: Place)
    requires Has(s.heap, o, place) && Movable(place) && Movable(to) && Unpinned(s.heap, o, place)
    requires PlaceReachable(s, place) && PlaceReachable(s, to)
    ensures Enabled(s, Move(o, place, to)) && OnlyHeap(s, Do(s, Move(o, place, to)))
    ensures Relocated(s.heap, Do(s, Move(o, place, to)).heap, o, place, to)
  {
    RelocateEffect(s.heap, o, place, to);
  }

  lemma DropCall(s: State, o: ObjId, place: Place, shard: nat)
    requires Reachable(s) && Has(s.heap, o, place) && Movable(place) && Unpinned(s.heap, o, place)
    requires PlaceReachable(s, place) && shard < s.heap.shards
    ensures Enabled(s, Drop(o, place, shard)) && OnlyHeap(s, Do(s, Drop(o, place, shard)))
    ensures Released(s.heap, Do(s, Drop(o, place, shard)).heap, o, place, shard)
  {
    HasShards(s, o);
    ReleaseEffect(s.heap, o, place, shard);
  }

  /** The cell holds the new pointer afterwards, and the thread the old one. */
  lemma SwapCall(s: State, t: nat, c: nat, new_: Option<ObjId>)
    requires Reachable(s) && CellReachable(s, c)
    requires new_.Some? ==> Has(s.heap, new_.value, InThread(t)) && Unpinned(s.heap, new_.value, InThread(t))
    ensures Enabled(s, Swap(t, c, new_)) && OnlyHeap(s, Do(s, Swap(t, c, new_)))
    ensures Exchanged(s.heap, Do(s, Swap(t, c, new_)).heap, t, c, new_)
    ensures ReadLoc(Do(s, Swap(t, c, new_)).heap, Cell(c)) == new_
  {
    ReachableInv(s);
    ExchangeEffect(s.heap, t, c, new_);
  }

  lemma InstallCall(s: State, t: nat, c: nat, o: ObjId, from: Place)
    requires Reachable(s) && CellReachable(s, c) && Has(s.heap, o, from) && Movable(from) && PlaceReachable(s, from)
    ensures Enabled(s, Action.Install(t, c, o, from)) && OnlyHeap(s, Do(s, Action.Install(t, c, o, from)))
    ensures Installed(s.heap, Do(s, Action.Install(t, c, o, from)).heap, t, c, o, from)
  {
    ReachableInv(s);
    InstallEffect(s.heap, t, c, o, from);
  }

  lemma CompensateCall(s: State, o: ObjId, from: Place, shard: nat)
    requires Reachable(s) && o in s.heap.objs && from in s.heap.objs[o].owed && shard < s.heap.shards
    ensures Enabled(s, Action.Compensate(o, from, shard)) && OnlyHeap(s, Do(s, Action.Compensate(o, from, shard)))
    ensures Compensated(s.heap, Do(s, Action.Compensate(o, from, shard)).heap, o, from)
  {
    HasShards(s, o);
    CompensateEffect(s.heap, o, from, shard);
  }

  /** The first `downgrade` of an object makes the weak inner object, with one handle in the object itself. */
  lemma FirstDowngradeCall(s: State, t: nat, o: ObjId, w: ObjId, addr: nat, shard: nat)
    requires Owned(s.heap, o) && s.heap.objs[o].weak.None? && w !in s.heap.objs && AddrFree(s.heap, addr)
    requires shard < s.heap.shards
    ensures Enabled(s, Downgrade(t, o, w, addr, shard)) && OnlyHeap(s, Do(s, Downgrade(t, o, w, addr, shard)))
    ensures Downgraded(s.heap, Do(s, Downgrade(t, o, w, addr, shard)).heap, o, w, addr)
    ensures Owned(Do(s, Downgrade(t, o, w, addr, shard)).heap, w)
  {
    InitWeakEffect(s.heap, o, w, addr, shard);
    assert InWeakRef(o) in Do(s, Downgrade(t, o, w, addr, shard)).heap.objs[w].owners;
  }

  /** Every `downgrade` then returns a clone of that handle. */
  lemma DowngradeCall(s: State, t: nat, o: ObjId, w: ObjId, shard: nat)
    requires Reachable(s) && o in s.heap.objs && !s.heap.objs[o].life.Freed? && s.heap.objs[o].weak == Some(w)
    requires shard < s.heap.shards
    ensures Enabled(s, Clone(t, w, shard)) && OnlyHeap(s, Do(s, Clone(t, w, shard)))
    ensures Acquired(s.heap, Do(s, Clone(t, w, shard)).heap, w, InThread(t))
  {
    ReachableInv(s);
    assert WeakRefOk(s.heap.objs, o);
    CloneCall(s, t, w, shard);
  }

  /** A new object is handed to the collector, which takes it over between passes. */
  lemma SubmitCall(s: State, o: ObjId)
    requires o in s.heap.objs && s.heap.objs[o].life.Unsubmitted?
    ensures Enabled(s, Submit(o)) && OnlyHeap(s, Do(s, Submit(o)))
    ensures Do(s, Submit(o)).heap == SetObj(s.heap, o, s.heap.objs[o].(life := Pending))
  {
  }

  lemma TakeCall(s: State, o: ObjId)
    requires s.col.pc.Resting? && o in s.heap.objs && s.heap.objs[o].life.Pending?
    ensures Enabled(s, Take(o)) && OnlyHeap(s, Do(s, Take(o)))
    ensures Do(s, Take(o)).heap == SetObj(s.heap, o, s.heap.objs[o].(life := DefaultState))
  {
  }

  // ----- destructors

  /** The destructor of a freed object drops a handle that the object held. */
  lemma DestroyDropCall(s: State, o: ObjId, place: Place, shard: nat)
    requires Reachable(s) && Has(s.heap, o, place) && Unpinned(s.heap, o, place) && shard < s.heap.shards
    requires (place.InObject? || place.InWeakRef?) && IsFreed(s.heap, place.p)
    ensures var a := Destroy(Release(o, place, shard));
      Enabled(s, a) && OnlyHeap(s, Do(s, a)) && Released(s.heap, Do(s, a).heap, o, place, shard)
  {
    HasShards(s, o);
    ReleaseEffect(s.heap, o, place, shard);
  }

  /** It moves a handle out of the object. */
  lemma DestroyMoveCall(s: State, o: ObjId, place: Place, to: Place)
    requires Has(s.heap, o, place) && Unpinned(s.heap, o, place) && place.InObject? && IsFreed(s.heap, place.p)
    requires Movable(to) && PlaceReachable(s, to)
    ensures var a := Destroy(Relocate(o, place, to));
      Enabled(s, a) && OnlyHeap(s, Do(s, a)) && Relocated(s.heap, Do(s, a).heap, o, place, to)
  {
    RelocateEffect(s.heap, o, place, to);
  }

  /** It empties a cell of the object. */
  lemma DestroyCellCall(s: State, t: nat, c: nat)
    requires Reachable(s) && c in s.homes && IsFreed(s.heap, s.homes[c])
    ensures var a := Destroy(Exchange(t, c, None));
      Enabled(s, a) && OnlyHeap(s, Do(s, a)) && Exchanged(s.heap, Do(s, a).heap, t, c, None)
  {
    ReachableInv(s);
    ExchangeEffect(s.heap, t, c, None);
  }

  // ----- loads

  /** The caller has what it takes to read the location. */
  ghost predicate Readable(s: State, loc: Loc) {
    LocHeld(s.heap, loc) && (loc.Cell? ==> CellReachable(s, loc.c))
  }

  function WithThread(s: State, t: nat, x: Thread): State
    requires t < |s.thr|
  {
    s.(thr := s.thr[t := x])
  }

  lemma ReadableStays(s: State, t: nat, x: Thread, loc: Loc)
    requires t < |s.thr| && x.guards == s.thr[t].guards && Readable(s, loc)
    ensures Readable(WithThread(s, t, x), loc)
  {
    if loc.Cell? && loc.c in s.homes {
      var p, s' := s.homes[loc.c], WithThread(s, t, x);
      if !Owned(s.heap, p) {
        var u, i :| 0 <= u < |s.thr| && i in s.thr[u].guards && s.thr[u].guards[i] == p;
        assert i in s'.thr[u].guards && s'.thr[u].guards[i] == p;
      }
    }
  }

  lemma BeginStep(s: State, t: nat, loc: Loc)
    requires t < |s.thr| && (s.thr[t].pc.Idle? || s.thr[t].pc == FallBack(loc)) && Readable(s, loc)
    ensures Enabled(s, BeginLoad(t, loc))
    ensures Do(s, BeginLoad(t, loc))
         == WithThread(s, t, s.thr[t].(sig := Issue(s.thr[t].sig, FlagStore(true)), pc := Entered(loc)))
  {
  }

  lemma LoadStep(s: State, t: nat)
    requires t < |s.thr| && s.thr[t].pc.Entered? && Readable(s, s.thr[t].pc.loc)
    ensures Enabled(s, Load(t))
    ensures var p := ReadLoc(s.heap, s.thr[t].pc.loc);
      Do(s, Load(t)) == WithThread(s, t, s.thr[t].(pc := if p.Some? then Loaded(p.value) else Leaving))
  {
  }

  lemma IncrementStep(s: State, t: nat, shard: nat)
    requires t < |s.thr| && s.thr[t].pc.Loaded? && s.thr[t].pc.o in s.heap.objs && shard < |s.heap.objs[s.thr[t].pc.o].ctr|
    ensures var s' := Do(s, IncrementLoaded(t, shard));
      && Enabled(s, IncrementLoaded(t, shard)) && s'.thr == s.thr[t := s.thr[t].(pc := Leaving)]
      && s'.col == s.col && s'.homes == s.homes && Acquired(s.heap, s'.heap, s.thr[t].pc.o, InThread(t))
  {
    AcquireEffect(s.heap, s.thr[t].pc.o, InThread(t), shard);
  }

  lemma LeaveStep(s: State, t: nat)
    requires t < |s.thr| && s.thr[t].pc.Leaving?
    ensures Enabled(s, Leave(t))
    ensures Do(s, Leave(t)) == WithThread(s, t, s.thr[t].(sig := Issue(s.thr[t].sig, FlagStore(false)), pc := Idle))
  {
  }

  /** The thread is where it was, and so are its signals as it sees them, save that its flag is off. */
  predicate Returned(x: Thread, y: Thread) {
    && y.pc.Idle? && y.guards == x.guards
    && Drain(y.sig) == Drain(x.sig).(flag := false)
  }

  lemma FlagUpAndDown(g: Signals)
    ensures Drain(Issue(Issue(g, FlagStore(true)), FlagStore(false))) == Drain(g).(flag := false)
  {
    DrainIssue(Issue(g, FlagStore(true)), FlagStore(false));
    DrainIssue(g, FlagStore(true));
  }

  lemma SomeShard(s: State)
    requires Reachable(s)
    ensures s.heap.shards > 0
  {
    ReachableInv(s);
  }

  lemma CanIncrement(s: State, loc: Loc, shard: nat)
    requires Reachable(s) && ReadLoc(s.heap, loc).Some? && shard < s.heap.shards
    ensures ReadLoc(s.heap, loc).value in s.heap.objs && shard < |s.heap.objs[ReadLoc(s.heap, loc).value].ctr|
  {
    ReachableInv(s);
    if loc.BackRef? {
      assert BackRefOk(s.heap.objs, loc.w);
    }
    HasShards(s, ReadLoc(s.heap, loc).value);
  }

  function Enters(t: nat, loc: Loc): seq<Action> { [BeginLoad(t, loc), Load(t)] }

  function CountsIt(t: nat, shard: nat): seq<Action> { [IncrementLoaded(t, shard), Leave(t)] }

  function Publishes(t: nat, loc: Loc): seq<Action> { [PreLoad(t, loc), Publish(t)] }

  /** Raising the flag and loading the pointer. */
  lemma LoadPrefix(s: State, t: nat, loc: Loc) returns (s': State)
    requires t < |s.thr| && (s.thr[t].pc.Idle? || s.thr[t].pc == FallBack(loc)) && Readable(s, loc)
    ensures Steps(s, Enters(t, loc), s')
    ensures var p := ReadLoc(s.heap, loc);
      s' == WithThread(s, t, s.thr[t].(sig := Issue(s.thr[t].sig, FlagStore(true)),
                                       pc := if p.Some? then Loaded(p.value) else Leaving))
  {
    BeginStep(s, t, loc);
    var s1 := Do(s, BeginLoad(t, loc));
    ReadableStays(s, t, s1.thr[t], loc);
    LoadStep(s1, t);
    s' := Do(s1, Load(t));
    StepsTwo(s, BeginLoad(t, loc), s1, Load(t), s');
  }

  /** Counting the new handle and lowering the flag. */
  lemma LoadSuffix(s: State, t: nat, shard: nat) returns (s': State)
    requires t < |s.thr| && s.thr[t].pc.Loaded? && s.thr[t].pc.o in s.heap.objs
    requires shard < |s.heap.objs[s.thr[t].pc.o].ctr|
    ensures Steps(s, CountsIt(t, shard), s')
    ensures s'.thr == s.thr[t := s.thr[t].(sig := Issue(s.thr[t].sig, FlagStore(false)), pc := Idle)]
    ensures s'.col == s.col && s'.homes == s.homes && Acquired(s.heap, s'.heap, s.thr[t].pc.o, InThread(t))
  {
    IncrementStep(s, t, shard);
    var s1 := Do(s, IncrementLoaded(t, shard));
    LeaveStep(s1, t);
    s' := Do(s1, Leave(t));
    StepsTwo(s, IncrementLoaded(t, shard), s1, Leave(t), s');
  }

  /** `load_owned` and `upgrade` return a new, counted handle to what the location holds. */
  lemma LoadCall(s: State, t: nat, loc: Loc, shard: nat) returns (s': State)
    requires Reachable(s) && t < |s.thr| && (s.thr[t].pc.Idle? || s.thr[t].pc == FallBack(loc))
    requires Readable(s, loc) && ReadLoc(s.heap, loc).Some? && shard < s.heap.shards
    ensures Steps(s, Enters(t, loc) + CountsIt(t, shard), s')
    ensures OnlyThread(s, s', t) && Returned(s.thr[t], s'.thr[t])
    ensures Acquired(s.heap, s'.heap, ReadLoc(s.heap, loc).value, InThread(t))
  {
    CanIncrement(s, loc, shard);
    var m := LoadPrefix(s, t, loc);
    s' := LoadSuffix(m, t, shard);
    StepsAppend(s, Enters(t, loc), m, CountsIt(t, shard), s');
    FlagUpAndDown(s.thr[t].sig);
  }

  /** They return nothing, and leave the heap alone, exactly if the location is null. */
  lemma LoadNullCall(s: State, t: nat, loc: Loc) returns (s': State)
    requires t < |s.thr| && (s.thr[t].pc.Idle? || s.thr[t].pc == FallBack(loc))
    requires Readable(s, loc) && ReadLoc(s.heap, loc).None?
    ensures Steps(s, Enters(t, loc) + [Leave(t)], s')
    ensures OnlyThread(s, s', t) && Returned(s.thr[t], s'.thr[t]) && s'.heap == s.heap
  {
    var m := LoadPrefix(s, t, loc);
    LeaveStep(m, t);
    s' := Do(m, Leave(t));
    FlagUpAndDown(s.thr[t].sig);
    StepsOne(m, Leave(t));
    StepsAppend(s, Enters(t, loc), m, [Leave(t)], s');
  }

  // ----- borrows

  lemma PreLoadStep(s: State, t: nat, loc: Loc)
    requires t < |s.thr| && s.thr[t].pc.Idle? && Readable(s, loc)
    ensures Enabled(s, PreLoad(t, loc))
    ensures var p := ReadLoc(s.heap, loc);
      Do(s, PreLoad(t, loc)) ==
        if p.Some? && p.value in s.heap.objs
        then WithThread(s, t, s.thr[t].(pc := PreLoaded(loc, s.heap.objs[p.value].addr))) else s
  {
  }

  lemma PublishStep(s: State, t: nat, i: Option<nat>)
    requires t < |s.thr| && s.thr[t].pc.PreLoaded? && i == FirstNull(Drain(s.thr[t].sig).slots, 0)
    ensures Enabled(s, Publish(t))
    ensures var x, pc := s.thr[t], s.thr[t].pc;
      Do(s, Publish(t)) == WithThread(s, t,
        if i.None? then x.(pc := FallBack(pc.loc))
        else x.(sig := Issue(x.sig, SlotStore(i.value, Some(pc.addr))), pc := Published(pc.loc, pc.addr, i.value)))
  {
  }

  lemma ReLoadStep(s: State, t: nat, o: ObjId)
    requires t < |s.thr| && s.thr[t].pc.Published? && Readable(s, s.thr[t].pc.loc)
    requires ReadLoc(s.heap, s.thr[t].pc.loc) == Some(o) && o in s.heap.objs && s.heap.objs[o].addr == s.thr[t].pc.addr
    ensures Enabled(s, ReLoad(t))
    ensures Do(s, ReLoad(t))
         == WithThread(s, t, s.thr[t].(pc := Idle, guards := s.thr[t].guards[s.thr[t].pc.slot := o]))
  {
  }

  /** Reading the pointer and publishing it. */
  lemma BorrowPrefix(s: State, t: nat, loc: Loc, o: ObjId, i: Option<nat>) returns (s': State)
    requires t < |s.thr| && s.thr[t].pc.Idle? && Readable(s, loc) && ReadLoc(s.heap, loc) == Some(o) && o in s.heap.objs
    requires FirstNull(Drain(s.thr[t].sig).slots, 0) == i
    ensures Steps(s, Publishes(t, loc), s')
    ensures var x, addr := s.thr[t], s.heap.objs[o].addr;
      s' == WithThread(s, t,
        if i.None? then x.(pc := FallBack(loc))
        else x.(sig := Issue(x.sig, SlotStore(i.value, Some(addr))), pc := Published(loc, addr, i.value)))
  {
    PreLoadStep(s, t, loc);
    var s1 := Do(s, PreLoad(t, loc));
    PublishStep(s1, t, i);
    s' := Do(s1, Publish(t));
    StepsTwo(s, PreLoad(t, loc), s1, Publish(t), s');
  }

  /** The first null slot of an idle thread is no guard's. */
  lemma FreeSlot(s: State, t: nat, i: nat)
    requires Reachable(s) && t < |s.thr| && s.thr[t].pc.Idle? && FirstNull(Drain(s.thr[t].sig).slots, 0) == Some(i)
    ensures i !in s.thr[t].guards
  {
    ReachableInv(s);
    assert ThreadOk(s.heap.objs, s.thr[t]);
    assert GuardOk(s.heap.objs, s.thr[t], i) && SlotOk(s.heap.objs, s.thr[t], i);
  }

  lemma BorrowSteps(s: State, t: nat, loc: Loc, o: ObjId, i: nat) returns (s': State)
    requires t < |s.thr| && s.thr[t].pc.Idle? && Readable(s, loc) && ReadLoc(s.heap, loc) == Some(o) && o in s.heap.objs
    requires FirstNull(Drain(s.thr[t].sig).slots, 0) == Some(i)
    ensures Steps(s, Publishes(t, loc) + [ReLoad(t)], s')
    ensures var x := s.thr[t];
      s' == WithThread(s, t, x.(sig := Issue(x.sig, SlotStore(i, Some(s.heap.objs[o].addr))), guards := x.guards[i := o]))
  {
    var m := BorrowPrefix(s, t, loc, o, Some(i));
    ReadableStays(s, t, m.thr[t], loc);
    ReLoadStep(m, t, o);
    s' := Do(m, ReLoad(t));
    StepsOne(m, ReLoad(t));
    StepsAppend(s, Publishes(t, loc), m, [ReLoad(t)], s');
  }

  /** A borrow from a location that is not null, with a free slot: a new guard in the first free slot. */
  lemma BorrowCall(s: State, t: nat, loc: Loc, o: ObjId, i: nat) returns (s': State)
    requires Reachable(s) && t < |s.thr| && s.thr[t].pc.Idle? && Readable(s, loc) && ReadLoc(s.heap, loc) == Some(o)
    requires FirstNull(Drain(s.thr[t].sig).slots, 0) == Some(i)
    ensures Steps(s, Publishes(t, loc) + [ReLoad(t)], s')
    ensures OnlyThread(s, s', t) && s'.heap == s.heap && o in s.heap.objs
    ensures i !in s.thr[t].guards && s'.thr[t].guards == s.thr[t].guards[i := o] && s'.thr[t].pc.Idle?
    ensures Drain(s'.thr[t].sig) == Land(Drain(s.thr[t].sig), SlotStore(i, Some(s.heap.objs[o].addr)))
  {
    SomeShard(s);
    CanIncrement(s, loc, 0);
    FreeSlot(s, t, i);
    s' := BorrowSteps(s, t, loc, o, i);
    DrainIssue(s.thr[t].sig, SlotStore(i, Some(s.heap.objs[o].addr)));
  }

  /** A borrow from a null location returns nothing and does nothing. */
  lemma BorrowNullCall(s: State, t: nat, loc: Loc)
    requires t < |s.thr| && s.thr[t].pc.Idle? && Readable(s, loc) && ReadLoc(s.heap, loc).None?
    ensures Enabled(s, PreLoad(t, loc)) && Do(s, PreLoad(t, loc)) == s
  {
    PreLoadStep(s, t, loc);
  }

  /** With all slots taken, a borrow falls back to an owned handle. */
  lemma BorrowOwnedCall(s: State, t: nat, loc: Loc, shard: nat) returns (s': State)
    requires Reachable(s) && t < |s.thr| && s.thr[t].pc.Idle? && Readable(s, loc) && ReadLoc(s.heap, loc).Some?
    requires FirstNull(Drain(s.thr[t].sig).slots, 0).None? && shard < s.heap.shards
    ensures Steps(s, Publishes(t, loc) + (Enters(t, loc) + CountsIt(t, shard)), s')
    ensures OnlyThread(s, s', t) && Returned(s.thr[t], s'.thr[t])
    ensures Acquired(s.heap, s'.heap, ReadLoc(s.heap, loc).value, InThread(t))
  {
    CanIncrement(s, loc, shard);
    var m := BorrowPrefix(s, t, loc, ReadLoc(s.heap, loc).value, None);
    ReachableSteps(s, Publishes(t, loc), m);
    ReadableStays(s, t, m.thr[t], loc);
    s' := LoadCall(m, t, loc, shard);
    StepsAppend(s, Publishes(t, loc), m, Enters(t, loc) + CountsIt(t, shard), s');
  }

  lemma ReachableDo(s: State, a: Action)
    requires Reachable(s) && Enabled(s, a)
    ensures Reachable(Do(s, a))
  {
    var run :| IsRun(run) && run[|run| - 1] == s;
    assert Next(s, Do(s, a));
    var r := run + [Do(s, a)];
    forall k | 0 <= k < |r| - 1 ensures NextAt(r, k) {
      if k < |run| - 1 {
        assert NextAt(run, k);
      } else {
        assert r[k] == s && r[k + 1] == Do(s, a);
      }
    }
    assert IsRun(r);
  }

  lemma {:induction false} ReachableTrace(path: seq<State>, s: State, acts: seq<Action>, s': State, k: nat)
    requires Reachable(s) && IsTrace(path, s, acts, s') && k < |path|
    ensures Reachable(path[k])
  {
    if k > 0 {
      ReachableTrace(path, s, acts, s', k - 1);
      assert StepAt(path, acts, k - 1);
      ReachableDo(path[k - 1], acts[k - 1]);
    }
  }

  lemma ReachableSteps(s: State, acts: seq<Action>, s': State)
    requires Reachable(s) && Steps(s, acts, s')
    ensures Reachable(s')
  {
    var path :| IsTrace(path, s, acts, s');
    ReachableTrace(path, s, acts, s', |acts|);
  }

  /** If the pointer has changed in between, the slot is given up again and the borrow falls back. */
  lemma BorrowRetries(s: State, t: nat)
    requires t < |s.thr| && s.thr[t].pc.Published? && Readable(s, s.thr[t].pc.loc)
    requires var p := ReadLoc(s.heap, s.thr[t].pc.loc);
      p.Some? && p.value in s.heap.objs ==> s.heap.objs[p.value].addr != s.thr[t].pc.addr
    ensures var x, s' := s.thr[t], Do(s, ReLoad(t));
      && Enabled(s, ReLoad(t)) && OnlyThread(s, s', t) && s'.heap == s.heap
      && s'.thr[t].pc == FallBack(x.pc.loc) && s'.thr[t].guards == x.guards
      && Drain(s'.thr[t].sig) == Land(Drain(x.sig), SlotStore(x.pc.slot, None))
  {
    DrainIssue(s.thr[t].sig, SlotStore(s.thr[t].pc.slot, None));
  }

  /** Dropping a guard gives its slot back. */
  lemma UnborrowCall(s: State, t: nat, i: nat)
    requires t < |s.thr| && s.thr[t].pc.Idle? && i in s.thr[t].guards
    ensures var x, s' := s.thr[t], Do(s, Unborrow(t, i));
      && Enabled(s, Unborrow(t, i)) && OnlyThread(s, s', t) && s'.heap == s.heap
      && s'.thr[t].pc.Idle? && s'.thr[t].guards == x.guards - {i}
      && Drain(s'.thr[t].sig) == Land(Drain(x.sig), SlotStore(i, None))
  {
    DrainIssue(s.thr[t].sig, SlotStore(i, None));
  }

  /** A new thread gets a record without any signal. */
  lemma RegisterCall(s: State)
    ensures Enabled(s, Register) && Do(s, Register) == s.(thr := s.thr + [Thread(Silent, Idle, map[])])
  {
  }

  /** A buffered store lands; the thread itself sees no difference, and one store fewer is under way. */
  lemma FlushStep(s: State, t: nat)
    requires t < |s.thr| && s.thr[t].sig.buf != []
    ensures var x, s' := s.thr[t], Do(s, Flush(t));
      && Enabled(s, Flush(t)) && OnlyThread(s, s', t) && s'.heap == s.heap
      && s'.thr[t] == x.(sig := s'.thr[t].sig) && Drain(s'.thr[t].sig) == Drain(x.sig)
      && s'.thr[t].sig.buf == x.sig.buf[1..]
  {
  }

  // ----- compare_and_set

  /** A finished `compare_and_set` has put a new, counted handle into the cell, and owes nothing. */
  ghost predicate ComparedAndSetAt(h: Heap, h': Heap, t: nat, c: nat, new_: ObjId, o: ObjId)
    requires o in h.objs && o in h'.objs
  {
    var x, y := h.objs[o], h'.objs[o];
    && SameButHandles(x, y) && SameTags(x, y) && y.owed == x.owed && Sum(y.ctr) == Sum(x.ctr) + Once(o == new_)
    && forall q :: y.owners[q] == x.owners[q]
         + (if InCellNow(h, c) == Some(o) then Once(q == InThread(t)) - Once(q == InCell(c)) else 0)
         + Once(o == new_ && q == InCell(c))
  }

  lemma BothHalves(h: Heap, h1: Heap, h2: Heap, t: nat, c: nat, new_: ObjId, from: Place, o: ObjId)
    requires Installed(h, h1, t, c, new_, from) && Compensated(h1, h2, new_, from) && o in h.objs
    ensures o in h2.objs && ComparedAndSetAt(h, h2, t, c, new_, o)
  {
    assert InstalledAt(h, h1, t, c, new_, from, o);
    assert forall q :: h2.objs[o].owed[q] == h.objs[o].owed[q];
  }

  /** Undisturbed, the two halves of a `compare_and_set` amount to a clone into the cell. */
  lemma CompareAndSetCall(s: State, t: nat, c: nat, o: ObjId, from: Place, shard: nat) returns (s': State)
    requires Reachable(s) && CellReachable(s, c) && Has(s.heap, o, from) && Movable(from) && PlaceReachable(s, from)
    requires shard < s.heap.shards
    ensures Steps(s, [Action.Install(t, c, o, from), Action.Compensate(o, from, shard)], s') && OnlyHeap(s, s')
    ensures OnlyCell(s.heap, s'.heap, c) && InCellNow(s'.heap, c) == Some(o)
    ensures forall p :: p in s.heap.objs ==> ComparedAndSetAt(s.heap, s'.heap, t, c, o, p)
  {
    InstallCall(s, t, c, o, from);
    var m := Do(s, Action.Install(t, c, o, from));
    assert InstalledAt(s.heap, m.heap, t, c, o, from, o);
    ReachableDo(s, Action.Install(t, c, o, from));
    CompensateCall(m, o, from, shard);
    s' := Do(m, Action.Compensate(o, from, shard));
    StepsTwo(s, Action.Install(t, c, o, from), m, Action.Compensate(o, from, shard), s');
    forall p | p in s.heap.objs ensures p in s'.heap.objs && ComparedAndSetAt(s.heap, s'.heap, t, c, o, p) {
      BothHalves(s.heap, m.heap, s'.heap, t, c, o, from, p);
    }
  }
}
