/** A whole pass of the collector, when the other threads stand still outside critical sections. */
module PassAlone {
  import opened Options
  import opened Signals
  import opened Heap
  import opened Protocol
  import opened ReaderInvariant
  import opened FreeSafety
  import opened CollectorEffects
  import opened Calls
  import opened Traversal
  import opened CollectorAlone

  predicate IsCollectors(a: Action) {
    a.HeavyFence? || a.Collect? || a.Visit? || a.StartFreeing? || a.Free? || a.EndPass?
  }

  ghost predicate Moves(s: State, s': State) { exists a :: IsCollectors(a) && Enabled(s, a) && s' == Do(s, a) }

  ghost predicate MovesAt(path: seq<State>, k: nat)
    requires k + 1 < |path|
  {
    Moves(path[k], path[k + 1])
  }

  ghost predicate IsPath(path: seq<State>, s: State, s': State) {
    && path != [] && path[0] == s && path[|path| - 1] == s'
    && forall k {:trigger MovesAt(path, k)} :: 0 <= k < |path| - 1 ==> MovesAt(path, k)
  }

  /** Steps of the collector lead from `s` to `s'`. */
  ghost predicate Alone(s: State, s': State) { exists path :: IsPath(path, s, s') }

  lemma PathsJoin(p: seq<State>, s: State, m: State, q: seq<State>, s': State)
    requires IsPath(p, s, m) && IsPath(q, m, s')
    ensures IsPath(p + q[1..], s, s')
  {
    var r := p + q[1..];
    forall k | 0 <= k < |r| - 1 ensures MovesAt(r, k) {
      if k < |p| - 1 {
        assert MovesAt(p, k);
      } else {
        assert r[k] == q[k - (|p| - 1)] && r[k + 1] == q[k - (|p| - 1) + 1];
        assert MovesAt(q, k - (|p| - 1));
      }
    }
  }

  lemma AloneMore(s: State, m: State, s': State)
    requires Alone(s, m) && Alone(m, s')
    ensures Alone(s, s')
  {
    var p :| IsPath(p, s, m);
    var q :| IsPath(q, m, s');
    PathsJoin(p, s, m, q, s');
  }

  lemma AloneNot(s: State)
    ensures Alone(s, s)
  {
    assert IsPath([s], s, s);
  }

  lemma AloneOne(s: State, a: Action) returns (s': State)
    requires Enabled(s, a) && IsCollectors(a)
    ensures Alone(s, s') && s' == Do(s, a)
  {
    s' := Do(s, a);
    assert Moves(s, s');
    assert IsPath([s, s'], s, s');
  }

  lemma AloneCollects(s: State, n: nat, s': State)
    requires Collects(s, n, s')
    ensures Alone(s, s')
  {
    var path :| IsCollectPath(path, s, n, s');
    forall k | 0 <= k < |path| - 1 ensures MovesAt(path, k) {
      assert CollectAt(path, k);
      assert IsCollectors(Collect);
    }
    assert IsPath(path, s, s');
  }

  lemma MoveReachable(s: State, s': State)
    requires Reachable(s) && Moves(s, s')
    ensures Reachable(s')
  {
    var a :| IsCollectors(a) && Enabled(s, a) && s' == Do(s, a);
    ReachableDo(s, a);
  }

  lemma {:induction false} PathReachable(path: seq<State>, s: State, s': State, k: nat)
    requires Reachable(s) && IsPath(path, s, s') && k < |path|
    ensures Reachable(path[k])
  {
    if k > 0 {
      PathReachable(path, s, s', k - 1);
      assert MovesAt(path, k - 1);
      MoveReachable(path[k - 1], path[k]);
    }
  }

  lemma AloneReachable(s: State, s': State)
    requires Reachable(s) && Alone(s, s')
    ensures Reachable(s')
  {
    var path :| IsPath(path, s, s');
    PathReachable(path, s, s', |path| - 1);
  }

  lemma {:induction false} PathKeepsThreads(path: seq<State>, s: State, s': State, k: nat)
    requires IsPath(path, s, s') && k < |path|
    ensures |path[k].thr| == |s.thr|
  {
    if k > 0 {
      PathKeepsThreads(path, s, s', k - 1);
      assert MovesAt(path, k - 1);
      MoveKeepsThreads(path[k - 1], path[k]);
    }
  }

  lemma MoveKeepsThreads(s: State, s': State)
    requires Moves(s, s')
    ensures |s'.thr| == |s.thr|
  {
  }

  lemma AloneKeepsThreads(s: State, s': State)
    requires Alone(s, s')
    ensures |s'.thr| == |s.thr|
  {
    var path :| IsPath(path, s, s');
    PathKeepsThreads(path, s, s', |path| - 1);
  }

  // ----- the parts of a pass

  ghost predicate NobodyInside(s: State) { forall t :: 0 <= t < |s.thr| ==> !InCriticalSection(s.thr[t].pc) }

  /** The threads are where they were, and all their stores have landed. */
  ghost predicate Drained(s: State, s': State) {
    |s'.thr| == |s.thr| && forall t :: 0 <= t < |s.thr| ==> s'.thr[t] == s.thr[t].(sig := Drain(s.thr[t].sig))
  }

  /** After the fence no flag is up in memory, if no thread is in a critical section. */
  lemma FenceStep(s: State) returns (s': State)
    requires Reachable(s) && s.col.pc.Resting? && NobodyInside(s)
    ensures Alone(s, s') && s'.heap == s.heap && s'.col == Collector(Scanning(0, 0), {}, |s.thr|, {})
    ensures Drained(s, s') && forall t :: 0 <= t < |s.thr| ==> !s'.thr[t].sig.flag
  {
    ReachableInv(s);
    s' := AloneOne(s, HeavyFence);
    forall t | 0 <= t < |s.thr| ensures !s'.thr[t].sig.flag {
      assert ThreadOk(s.heap.objs, s.thr[t]);
    }
  }

  /** A thread has the address in a slot, as it sees it: a guard's, or one it has just published. */
  ghost predicate Announced(s: State, addr: nat) {
    exists t, j :: 0 <= t < |s.thr| && 0 <= j < |Drain(s.thr[t].sig).slots| && Drain(s.thr[t].sig).slots[j] == Some(addr)
  }

  lemma AnnouncedIsSignalled(s: State, m: State, addr: nat)
    requires Drained(s, m) && m.col.limit == |m.thr|
    ensures Signalled(m, addr) <==> Announced(s, addr)
  {
    if Announced(s, addr) {
      var t, j :| 0 <= t < |s.thr| && 0 <= j < |Drain(s.thr[t].sig).slots| && Drain(s.thr[t].sig).slots[j] == Some(addr);
      assert m.thr[t].sig.slots[j] == Some(addr);
    }
    if Signalled(m, addr) {
      var t, j :| 0 <= t < m.col.limit && t < |m.thr| && 0 <= j < |m.thr[t].sig.slots| && m.thr[t].sig.slots[j] == Some(addr);
      assert Drain(s.thr[t].sig).slots[j] == Some(addr);
    }
  }

  lemma TraversalPart(m: State) returns (s': State)
    requires Reachable(m) && m.col.pc == Scanning(0, 0) && forall t :: 0 <= t < |m.thr| ==> !m.thr[t].sig.flag
    ensures Alone(m, s') && s' == m.(col := m.col.(pc := Choosing, hazards := s'.col.hazards))
    ensures forall addr :: addr in s'.col.hazards <==> Signalled(m, addr)
  {
    s' := TraversalEnds(m);
    AloneCollects(m, m.col.limit * (SLOTS + 1) + 1, s');
  }

  lemma FencePart(s: State) returns (s': State)
    requires Reachable(s) && s.col.pc.Resting? && NobodyInside(s)
    ensures Alone(s, s') && s'.heap == s.heap && s'.col.pc.Choosing? && s'.col.visited == {} && Drained(s, s')
    ensures forall addr :: addr in s'.col.hazards <==> Announced(s, addr)
  {
    var m := FenceStep(s);
    AloneReachable(s, m);
    s' := TraversalPart(m);
    AloneMore(s, m, s');
    forall addr ensures addr in s'.col.hazards <==> Announced(s, addr) {
      AnnouncedIsSignalled(s, m, addr);
    }
  }

  predicate Unvisited(s: State, o: ObjId) { TrackedIn(s.heap, o) && o !in s.col.visited }

  function AllUnvisited(s: State): set<ObjId> { set o | o in s.heap.objs && Unvisited(s, o) }

  /** One object has had its visit, and no other object is affected. */
  ghost predicate OneVisit(h: Heap, h': Heap, o: ObjId, hazards: set<nat>) {
    && o in h.objs && SameCoreExcept(h, h', o)
    && Core(h'.objs[o]) == Core(AfterVisit(h, o, hazards)) && HasBackRef(h'.objs, o) == RefAfterVisit(h, o, hazards)
    && forall p :: p in h.objs && p != o ==> HasBackRef(h'.objs, p) == HasBackRef(h.objs, p)
  }

  lemma UpdateStep(s: State, o: ObjId) returns (s': State)
    requires Reachable(s) && s.col.pc.Choosing? && Unvisited(s, o)
    ensures Alone(s, s') && s'.col == s.col.(visited := s.col.visited + {o}) && s'.thr == s.thr
    ensures OneVisit(s.heap, s'.heap, o, s.col.hazards)
  {
    var n;
    n, s' := UpdateAlone(s, o);
    var m := AloneOne(s, Visit(o));
    AloneCollects(m, n, s');
    AloneMore(s, m, s');
    SetLifeExact(s.heap, o, DefaultState);
  }

  lemma VisitKeepsLife(h: Heap, h': Heap, o: ObjId, hazards: set<nat>, p: ObjId)
    requires OneVisit(h, h', o, hazards) && p in h.objs && p != o
    ensures p in h'.objs && h'.objs[p].life == h.objs[p].life
  {
    assert Core(h'.objs[p]) == Core(h.objs[p]);
    assert Core(h'.objs[p]).life == h'.objs[p].life;
  }

  lemma VisitOne(s: State, o: ObjId) returns (s': State)
    requires Reachable(s) && s.col.pc.Choosing? && Unvisited(s, o)
    ensures Alone(s, s') && s'.col == s.col.(visited := s.col.visited + {o}) && s'.thr == s.thr
    ensures OneVisit(s.heap, s'.heap, o, s.col.hazards) && AllUnvisited(s') == AllUnvisited(s) - {o}
  {
    s' := UpdateStep(s, o);
    forall p | p in s.heap.objs && p != o ensures s'.heap.objs[p].life == s.heap.objs[p].life {
      VisitKeepsLife(s.heap, s'.heap, o, s.col.hazards, p);
    }
  }

  lemma VisitedNone(h: Heap, hazards: set<nat>)
    ensures Visited(h, h, {}, hazards)
  {
    forall o ensures VisitedAt(h, h, {}, hazards, o) {}
  }

  lemma VisitNext(h: Heap, done: set<ObjId>, s: State, o: ObjId) returns (s': State)
    requires Reachable(s) && s.col.pc.Choosing? && Unvisited(s, o) && o !in done && o in h.objs
    requires Visited(h, s.heap, done, s.col.hazards)
    ensures Alone(s, s') && Reachable(s') && s'.col == s.col.(visited := s.col.visited + {o}) && s'.thr == s.thr
    ensures Visited(h, s'.heap, done + {o}, s.col.hazards) && AllUnvisited(s') == AllUnvisited(s) - {o}
  {
    s' := VisitOne(s, o);
    AloneReachable(s, s');
    VisitedStep(h, s.heap, s'.heap, done, s.col.hazards, o);
  }

  lemma SetsAdd(a: set<ObjId>, todo: set<ObjId>, o: ObjId)
    requires o in todo
    ensures a + {o} + (todo - {o}) == a + todo
  {
  }

  lemma {:induction false} VisitAll(h: Heap, done: set<ObjId>, s: State, todo: set<ObjId>) returns (s': State)
    requires Reachable(s) && s.col.pc.Choosing? && todo == AllUnvisited(s) && todo !! done && todo <= h.objs.Keys
    requires Visited(h, s.heap, done, s.col.hazards)
    ensures Alone(s, s') && s'.col == s.col.(visited := s.col.visited + todo) && s'.thr == s.thr
    ensures Visited(h, s'.heap, done + todo, s.col.hazards)
    decreases todo
  {
    if todo == {} {
      s' := s;
      AloneNot(s);
      assert s.col.visited + {} == s.col.visited && done + {} == done;
    } else {
      var o :| o in todo;
      var m := VisitNext(h, done, s, o);
      s' := VisitAll(h, done + {o}, m, todo - {o});
      AloneMore(s, m, s');
      SetsAdd(s.col.visited, todo, o);
      SetsAdd(done, todo, o);
    }
  }

  function AllReady(s: State): set<ObjId> { set o | o in s.heap.objs && s.heap.objs[o].life.ReadyToFree? }

  lemma FreeOne(s: State, o: ObjId) returns (s': State)
    requires s.col.pc.Freeing? && o in AllReady(s)
    ensures Alone(s, s') && s'.col == s.col && s'.thr == s.thr && s'.heap == SetObj(s.heap, o, s.heap.objs[o].(life := Freed))
    ensures AllReady(s') == AllReady(s) - {o}
  {
    s' := AloneOne(s, Free(o));
  }

  lemma {:induction false} FreeAll(s: State, todo: set<ObjId>) returns (s': State)
    requires s.col.pc.Freeing? && todo == AllReady(s)
    ensures Alone(s, s') && s'.col == s.col && s'.thr == s.thr && AllReady(s') == {}
    ensures forall o :: o in s.heap.objs ==>
      o in s'.heap.objs && s'.heap.objs[o] == if o in todo then s.heap.objs[o].(life := Freed) else s.heap.objs[o]
    decreases todo
  {
    if todo == {} {
      s' := s;
      AloneNot(s);
    } else {
      var o :| o in todo;
      var m := FreeOne(s, o);
      s' := FreeAll(m, todo - {o});
      AloneMore(s, m, s');
    }
  }

  lemma EndStep(s: State) returns (s': State)
    requires s.col.pc.Freeing? && AllReady(s) == {}
    ensures Alone(s, s') && s'.heap == s.heap && s'.col == s.col.(pc := Resting) && s'.thr == s.thr
  {
    forall o | o in s.heap.objs ensures !s.heap.objs[o].life.ReadyToFree? {
      assert o !in AllReady(s);
    }
    s' := AloneOne(s, EndPass);
  }

  function FreedIfReady(x: Obj): Obj { if x.life.ReadyToFree? then x.(life := Freed) else x }

  /** Whatever is ready is freed, and nothing else happens to any object. */
  lemma LastPart(s: State) returns (s': State)
    requires s.col.pc.Choosing?
    ensures Alone(s, s') && s'.col.pc.Resting? && s'.col.visited == s.col.visited && s'.thr == s.thr
    ensures forall o :: o in s.heap.objs ==> o in s'.heap.objs && s'.heap.objs[o] == FreedIfReady(s.heap.objs[o])
  {
    var m := AloneOne(s, StartFreeing);
    var u := FreeAll(m, AllReady(m));
    AloneMore(s, m, u);
    s' := EndStep(u);
    AloneMore(s, u, s');
  }

  /**
   From any reachable state between two passes, with no thread in a critical section, the collector
   alone can go through a whole pass: the hazards are what the threads have announced, every tracked
   object gets exactly its visit, leading to `mid`, and exactly what is ready then is freed.
   */
  lemma PassCompletes(s: State) returns (hazards: set<nat>, mid: State, s': State)
    requires Reachable(s) && s.col.pc.Resting? && NobodyInside(s)
    ensures Alone(s, mid) && Alone(mid, s') && s'.col.pc.Resting? && Drained(s, s')
    ensures forall addr :: addr in hazards <==> Announced(s, addr)
    ensures Visited(s.heap, mid.heap, TrackedOf(s.heap, s.heap.objs.Keys), hazards)
    ensures forall o :: o in mid.heap.objs ==> o in s'.heap.objs && s'.heap.objs[o] == FreedIfReady(mid.heap.objs[o])
  {
    var u := FencePart(s);
    AloneReachable(s, u);
    hazards := u.col.hazards;
    VisitedNone(s.heap, hazards);
    mid := VisitAll(s.heap, {}, u, AllUnvisited(u));
    AloneMore(s, u, mid);
    s' := LastPart(mid);
    assert {} + AllUnvisited(u) == TrackedOf(s.heap, s.heap.objs.Keys);
  }

  // ----- dead objects are freed

  /** Nobody owns the object, refers back to it or has announced its address. */
  ghost predicate Derelict(s: State, o: ObjId) {
    && o in s.heap.objs && s.heap.objs[o].owners == multiset{} && !HasBackRef(s.heap.objs, o)
    && !Announced(s, s.heap.objs[o].addr)
  }

  lemma DrainedStays(s: State, s': State, addr: nat)
    requires Drained(s, s')
    ensures NobodyInside(s) ==> NobodyInside(s')
    ensures Announced(s', addr) ==> Announced(s, addr)
  {
    if Announced(s', addr) {
      var t, j :| 0 <= t < |s'.thr| && 0 <= j < |Drain(s'.thr[t].sig).slots| && Drain(s'.thr[t].sig).slots[j] == Some(addr);
      assert Drain(s'.thr[t].sig) == Drain(s.thr[t].sig);
    }
  }

  /** What one pass makes of such an object. */
  lemma PassOnDead(s: State, o: ObjId) returns (s': State)
    requires Reachable(s) && s.col.pc.Resting? && NobodyInside(s) && Derelict(s, o) && TrackedIn(s.heap, o)
    ensures Alone(s, s') && s'.col.pc.Resting? && NobodyInside(s') && Derelict(s', o)
    ensures var x, y := s.heap.objs[o], s'.heap.objs[o];
      if x.life.DefaultState? then y.life.RequiresReChecking? && !Tagged(y.ctr)
      else if Tagged(x.ctr) then y.life.DefaultState?
      else y.life.Freed?
  {
    var hazards, mid;
    hazards, mid, s' := PassCompletes(s);
    AloneMore(s, mid, s');
    DrainedStays(s, s', s.heap.objs[o].addr);
    DeadVisit(s, mid, hazards, o);
    AloneReachable(s, mid);
    DeadRef(mid, s', o);
  }

  lemma DeadVisit(s: State, mid: State, hazards: set<nat>, o: ObjId)
    requires Reachable(s) && Derelict(s, o) && TrackedIn(s.heap, o) && s.heap.objs[o].addr !in hazards
    requires Visited(s.heap, mid.heap, TrackedOf(s.heap, s.heap.objs.Keys), hazards)
    ensures o in mid.heap.objs && mid.heap.objs[o].owners == multiset{} && mid.heap.objs[o].addr == s.heap.objs[o].addr
    ensures !HasBackRef(mid.heap.objs, o)
    ensures var x, y := s.heap.objs[o], mid.heap.objs[o];
      if x.life.DefaultState? then y.life.RequiresReChecking? && !Tagged(y.ctr)
      else if Tagged(x.ctr) then y.life.DefaultState?
      else y.life.ReadyToFree?
  {
    ReachableInv(s);
    assert CountOk(s.heap, o);
    UnownedOwesNothing(s.heap, o);
    assert VisitedAt(s.heap, mid.heap, TrackedOf(s.heap, s.heap.objs.Keys), hazards, o);
    var y := mid.heap.objs[o];
    assert Core(y).life == y.life && Core(y).owners == y.owners && Core(y).ctr == y.ctr && Core(y).addr == y.addr;
  }

  lemma DeadRef(mid: State, s': State, o: ObjId)
    requires Reachable(mid) && o in mid.heap.objs && !HasBackRef(mid.heap.objs, o)
    requires forall p :: p in mid.heap.objs ==> p in s'.heap.objs && s'.heap.objs[p] == FreedIfReady(mid.heap.objs[p])
    ensures !HasBackRef(s'.heap.objs, o)
  {
    ReachableInv(mid);
    assert WeakRefOk(mid.heap.objs, o);
  }

  /** Two passes of the collector alone free every such object in DefaultState, whatever else there is. */
  lemma DeadIsFreed(s: State, o: ObjId) returns (s': State)
    requires Reachable(s) && s.col.pc.Resting? && NobodyInside(s) && Derelict(s, o) && s.heap.objs[o].life.DefaultState?
    ensures Alone(s, s') && o in s'.heap.objs && s'.heap.objs[o].life.Freed?
  {
    var m := PassOnDead(s, o);
    AloneReachable(s, m);
    s' := PassOnDead(m, o);
    AloneMore(s, m, s');
  }
}
