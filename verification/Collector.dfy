/** The collector thread's own code, with other threads at work between any two of its accesses. */
module CollectorThread {
  import opened Options
  import opened Counters
  import opened Heap
  import opened PassBound
  import opened CollectorEffects
  import opened DeepCollection

  /**
   With `quiescent` set the other threads stand still, and the contracts say exactly what the
   collector's own code does; module `DeepCollection` builds on that.
   */
  class Collector {
    const quiescent: bool
    var heap: Heap
    var dropped: set<ObjId>   // objects dropped by this thread since the last pass

    constructor (h: Heap, quiescent: bool)
      requires Calm(h)
      ensures heap == h && dropped == {} && this.quiescent == quiescent
    {
      heap := h;
      dropped := {};
      this.quiescent := quiescent;
    }

    /** Other threads take any number of steps. */
    method Interfere()
      requires Calm(heap)
      modifies this`heap
      ensures Calm(heap) && Others(old(heap), heap)
      ensures quiescent ==> heap == old(heap)
    {
      OthersReflexive(heap);
      if !quiescent {
        var steps: int := *;
        for i := 0 to if steps < 0 then 0 else steps
          invariant Calm(heap) && Others(old(heap), heap)
        {
          var op: HeapOp := *;
          if IsMutatorOp(heap, op) && Ok(heap, op) {
            KeepsCalm(heap, op);
            MutatorIsOther(heap, op);
            OthersTransitive(old(heap), heap, Apply(heap, op));
            heap := Apply(heap, op);
          }
        }
      }
    }

    /** Others act, then the collector reads shard `k`. */
    method LoadShard(o: ObjId, k: nat, ghost h: Heap) returns (c: Counter)
      requires Calm(heap) && o in heap.objs && k < heap.shards && Others(h, heap) && o in h.objs
      modifies this`heap
      ensures Calm(heap) && Others(h, heap) && heap.shards == old(heap).shards && o in heap.objs
      ensures k < |h.objs[o].ctr| && ShardOthers(h.objs[o].ctr[k], c)
      ensures quiescent ==> heap == old(heap) && k < |heap.objs[o].ctr| && c == heap.objs[o].ctr[k]
    {
      Interfere();
      OthersTransitive(h, old(heap), heap);
      assert OthersAt(h, heap, o) && CountOk(heap, o);
      c := heap.objs[o].ctr[k];
    }

    /** The relaxed pre-check: a filter that promises nothing while others are active. */
    method RelaxedSum(o: ObjId) returns (sum: int)
      requires Calm(heap) && o in heap.objs
      modifies this`heap
      ensures Calm(heap) && Others(old(heap), heap)
      ensures quiescent ==> heap == old(heap) && sum == Sum(heap.objs[o].ctr)
    {
      sum := 0;
      OthersReflexive(heap);
      assert CountOk(heap, o);
      for k := 0 to heap.shards
        invariant Calm(heap) && Others(old(heap), heap) && heap.shards == old(heap.shards) && o in heap.objs
        invariant quiescent ==> heap == old(heap) && sum == SumTo(old(heap.objs[o].ctr), k)
      {
        var c := LoadShard(o, k, old(heap));
        sum := sum + c.n;
      }
    }

    /** Others act, then the collector reads shard `k` and clears its tag in one access. */
    method FetchAndClearTag(o: ObjId, k: nat, ghost h: Heap, ghost sum: int) returns (c: Counter)
      requires Calm(heap) && o in heap.objs && k < heap.shards && Progress(h, heap, {})
      requires quiescent ==> ClearedUpTo(h, heap, o, k, sum) && k < |h.objs[o].ctr|
      modifies this`heap
      ensures Calm(heap) && Progress(h, heap, {}) && o in heap.objs && heap.shards == old(heap).shards
      ensures quiescent ==> ClearedUpTo(h, heap, o, k + 1, sum + c.n)
      ensures |old(heap.objs[o].ctr)| == |heap.objs[o].ctr| == heap.shards && heap.objs[o].ctr[k] == ClearTag(c)
      ensures forall j :: 0 <= j < heap.shards && j != k ==> ShardOthers(old(heap.objs[o].ctr)[j], heap.objs[o].ctr[j])
    {
      Interfere();
      OthersProgress(old(heap), heap);
      ProgressTransitive(h, old(heap), heap, {}, {}, {});
      assert OthersAt(old(heap), heap, o) && CountOk(heap, o);
      c := heap.objs[o].ctr[k];
      OpProgress(heap, Untag(o, k), {});
      ProgressTransitive(h, heap, Apply(heap, Untag(o, k)), {}, {}, {});
      if quiescent {
        ClearedStep(h, heap, o, k, sum);
      }
      heap := Apply(heap, Untag(o, k));
    }

    /**
     Clears every tag and adds up the counts. `seen` are the counts it read: whatever others do, a
     shard that has no tag afterwards has only grown since it was read.
     */
    method ClearTagsAndSum(o: ObjId) returns (sum: int, ghost seen: seq<int>)
      requires Calm(heap) && o in heap.objs
      modifies this`heap
      ensures Calm(heap) && Progress(old(heap), heap, {})
      ensures o in heap.objs && |seen| == |heap.objs[o].ctr| && sum == Total(seen, |seen|)
      ensures forall j :: 0 <= j < |seen| ==> ShardSince(heap.objs[o].ctr, seen, j)
      ensures quiescent ==> sum == Sum(old(heap.objs[o].ctr))
      ensures quiescent ==> heap == SetObj(old(heap), o, old(heap.objs[o]).(ctr := Untagged(old(heap.objs[o].ctr))))
    {
      sum, seen := 0, [];
      ghost var h := heap;
      assert CountOk(heap, o);
      ClearedStarts(h, o);
      ProgressReflexive(h);
      for k := 0 to heap.shards
        invariant Calm(heap) && Progress(h, heap, {}) && o in heap.objs && heap.shards == h.shards
        invariant |seen| == k && sum == Total(seen, k) && |heap.objs[o].ctr| == heap.shards
        invariant forall j :: 0 <= j < k ==> ShardSince(heap.objs[o].ctr, seen, j)
        invariant quiescent ==> ClearedUpTo(h, heap, o, k, sum)
      {
        ghost var before := heap.objs[o].ctr;
        var c := FetchAndClearTag(o, k, h, sum);
        TotalExtends(seen, c.n, k);
        ScanGoesOn(before, heap.objs[o].ctr, seen, k, c);
        sum, seen := sum + c.n, seen + [c.n];
      }
      if quiescent {
        ClearedEnds(h, heap, o, sum);
      }
    }

    /**
     The re-check. Whatever happens between its reads, a result counts at least the handles that
     existed when the re-check began, so it is never negative.
     */
    method SumIfUntagged(o: ObjId) returns (r: Option<int>)
      requires Calm(heap) && o in heap.objs
      modifies this`heap
      ensures Calm(heap) && Others(old(heap), heap)
      ensures r.Some? ==> r.value >= |old(heap.objs[o].owners)|
      ensures quiescent ==> heap == old(heap)
      ensures quiescent ==> r == if Tagged(heap.objs[o].ctr) then None else Some(Sum(heap.objs[o].ctr))
    {
      var sum := 0;
      ghost var ctr := heap.objs[o].ctr;
      OthersReflexive(heap);
      assert CountOk(heap, o);
      for k := 0 to heap.shards
        invariant Calm(heap) && Others(old(heap), heap) && heap.shards == old(heap.shards) && o in heap.objs
        invariant quiescent ==> heap == old(heap)
        invariant quiescent ==> sum == SumTo(ctr, k) && forall j :: 0 <= j < k ==> !ctr[j].tag
        invariant sum >= SumTo(ctr, k)
      {
        var c := LoadShard(o, k, old(heap));
        if c.tag {
          return None;
        }
        sum := sum + c.n;
      }
      return Some(sum);
    }

    method SetState(o: ObjId, life: Life, ghost h: Heap)
      requires Calm(heap) && o in heap.objs && !heap.objs[o].life.Freed?
      requires Progress(h, heap, {}) && o in h.objs
      modifies this`heap
      ensures heap == Apply(old(heap), SetLife(o, life))
      ensures Calm(heap) && Progress(h, heap, {o})
    {
      OpProgress(heap, SetLife(o, life), {o});
      ProgressTransitive(h, heap, Apply(heap, SetLife(o, life)), {}, {o}, {o});
      heap := Apply(heap, SetLife(o, life));
    }

    method UpdateState(o: ObjId)
      requires Calm(heap) && o in heap.objs && IsTracked(heap.objs[o])
      modifies this`heap
      ensures Calm(heap) && Progress(old(heap), heap, {o}) && Outcome(old(heap), heap, o)
      ensures quiescent ==> Exactly(old(heap), heap, o)
    {
      if heap.objs[o].life.DefaultState? {
        UpdateDefault(o);
      } else {
        UpdateReChecking(o);
      }
    }

    method UpdateDefault(o: ObjId)
      requires Calm(heap) && o in heap.objs && heap.objs[o].life.DefaultState?
      modifies this`heap
      ensures Calm(heap) && Progress(old(heap), heap, {o}) && Outcome(old(heap), heap, o)
      ensures quiescent ==> Exactly(old(heap), heap, o)
    {
      ghost var h := heap;
      DefaultExact(h, o);
      var relaxedSum := RelaxedSum(o);
      OthersProgress(h, heap);
      assert ProgressAt(h, heap, {}, o);
      if relaxedSum != 0 {
        ProgressWeaken(h, heap, {}, {o});
      } else {
        ClearAndJudge(o, h);
      }
    }

    /** The pre-check saw zero: clear the tags, and look again. */
    method ClearAndJudge(o: ObjId, ghost h: Heap)
      requires Calm(heap) && o in heap.objs && heap.objs[o].life.DefaultState?
      requires Progress(h, heap, {}) && o in h.objs && h.objs[o].life.DefaultState?
      modifies this`heap
      ensures Calm(heap) && Progress(h, heap, {o})
      ensures o in heap.objs && IsTracked(heap.objs[o])
      ensures quiescent && Sum(old(heap.objs[o].ctr)) == 0 ==>
        heap == Apply(SetObj(old(heap), o, old(heap.objs[o]).(ctr := Untagged(old(heap.objs[o].ctr)))),
                      SetLife(o, RequiresReChecking))
    {
      ghost var h1 := heap;
      var sum, _ := ClearTagsAndSum(o);
      assert ProgressAt(h1, heap, {}, o);
      ProgressTransitive(h, h1, heap, {}, {}, {});
      if sum == 0 {
        SetState(o, RequiresReChecking, h);
      } else {
        ProgressWeaken(h, heap, {}, {o});
      }
    }

    method UpdateReChecking(o: ObjId)
      requires Calm(heap) && o in heap.objs && heap.objs[o].life.RequiresReChecking?
      modifies this`heap
      ensures Calm(heap) && Progress(old(heap), heap, {o}) && Outcome(old(heap), heap, o)
      ensures quiescent ==> Exactly(old(heap), heap, o)
    {
      ghost var h := heap;
      var optSum := SumIfUntagged(o);
      OthersProgress(h, heap);
      assert ProgressAt(h, heap, {}, o);
      if optSum.Some? && optSum.value == 0 {
        ClearWeakBackRef(o, h);
      } else {
        assert optSum.Some? ==> optSum.value > 0;
        SetLifeExact(heap, o, DefaultState);
        SetState(o, DefaultState, h);
      }
    }

    /** No handle is left: cut the back reference, or, if there is none to cut, free the object. */
    method ClearWeakBackRef(o: ObjId, ghost h: Heap)
      requires Calm(heap) && o in heap.objs && heap.objs[o].life.RequiresReChecking?
      requires Progress(h, heap, {}) && o in h.objs && h.objs[o].life.RequiresReChecking?
      modifies this`heap
      ensures Calm(heap) && Progress(h, heap, {o}) && Outcome(h, heap, o)
      ensures SameCoreExcept(old(heap), heap, o)
      ensures Core(heap.objs[o]) == Core(old(heap.objs[o]).(
                life := if HasBackRef(old(heap).objs, o) then RequiresReChecking else ReadyToFree))
      ensures !HasBackRef(heap.objs, o)
      ensures forall p :: p in old(heap).objs && p != o ==> HasBackRef(heap.objs, p) == HasBackRef(old(heap).objs, p)
    {
      assert ProgressAt(h, heap, {}, o);
      if HasBackRef(heap.objs, o) {
        var op := CutBackRef(heap.objs[o].weak.value);
        CutExact(heap, o);
        OpProgress(heap, op, {});
        ProgressTransitive(h, heap, Apply(heap, op), {}, {}, {o});
        heap := Apply(heap, op);
      } else {
        SetLifeExact(heap, o, ReadyToFree);
        SetState(o, ReadyToFree, h);
      }
    }

    // ----- one pass

    /** The addresses in hazard slots, if any; a quiescent heap has no borrower. */
    method TraverseSignals() returns (hazards: set<nat>)
      ensures quiescent ==> hazards == {}
    {
      hazards := {};
      if !quiescent {
        hazards := *;
      }
    }

    /** The loop over the tracked objects among `keys`. */
    method UpdateCounters(keys: set<ObjId>, hazards: set<nat>) returns (toFree: set<ObjId>, toReCheck: set<ObjId>)
      requires Calm(heap) && NoneReady(heap)
      modifies this`heap
      ensures Calm(heap)
      ensures var done := TrackedOf(old(heap), keys);
        && Updated(old(heap), heap, done)
        && (quiescent ==> Visited(old(heap), heap, done, hazards))
        && toFree == ReadyOf(heap, done) && toReCheck == ReCheckedOf(heap, done)
    {
      toFree, toReCheck := {}, {};
      var todo := keys;
      ghost var h, done := heap, {};
      ProgressReflexive(h);
      assert Updated(h, heap, done) by { forall o ensures UpdatedAt(h, heap, done, o) {} }
      assert Visited(h, heap, done, hazards) by { forall o ensures VisitedAt(h, heap, done, hazards, o) {} }
      while todo != {}
        invariant todo <= keys && done == TrackedOf(h, keys - todo)
        invariant Calm(heap) && Updated(h, heap, done)
        invariant quiescent ==> Visited(h, heap, done, hazards)
        invariant toFree == ReadyOf(heap, done) && toReCheck == ReCheckedOf(heap, done)
      {
        var o :| o in todo;
        assert ProgressAt(h, heap, done, o);
        if TrackedIn(heap, o) {
          UpdateOne(o, hazards, h, done);
          if heap.objs[o].life.ReadyToFree? {
            toFree := toFree + {o};
          } else if heap.objs[o].life.RequiresReChecking? {
            toReCheck := toReCheck + {o};
          }
          done := done + {o};
        }
        todo := todo - {o};
      }
      assert done == TrackedOf(h, keys);
    }

    method UpdateOne(o: ObjId, hazards: set<nat>, ghost h: Heap, ghost done: set<ObjId>)
      requires Calm(heap) && TrackedIn(heap, o) && Updated(h, heap, done) && o !in done && TrackedIn(h, o)
      requires quiescent ==> Visited(h, heap, done, hazards)
      modifies this`heap
      ensures Calm(heap) && Updated(h, heap, done + {o}) && o in heap.objs
      ensures forall p :: p in done ==> p in old(heap).objs && p in heap.objs && heap.objs[p].life == old(heap.objs[p].life)
      ensures quiescent ==> Visited(h, heap, done + {o}, hazards)
    {
      ghost var h1 := heap;
      if heap.objs[o].addr in hazards {
        SetLifeExact(heap, o, DefaultState);
        ProgressReflexive(heap);
        SetState(o, DefaultState, heap);
      } else {
        UpdateState(o);
      }
      UpdatedStep(h, h1, heap, done, o);
      if quiescent {
        VisitedStep(h, h1, heap, done, hazards, o);
      }
      forall p | p in done
        ensures p in h1.objs && p in heap.objs && heap.objs[p].life == h1.objs[p].life
      {
        assert UpdatedAt(h, h1, done, p) && ProgressAt(h1, heap, {o}, p);
      }
    }

    // ----- freeing

    /** The shard a drop lands on can be any. */
    method CurrShard() returns (shard: nat)
      requires Calm(heap)
      ensures shard < heap.shards
    {
      var any: int := *;
      shard := if 0 <= any < heap.shards then any else 0;
    }

    /** Drop every handle of `q` at `place`. */
    method DropAt(q: ObjId, place: Place, ghost h: Heap, ghost s: set<ObjId>)
      requires Calm(heap) && q in heap.objs && Droppable(heap, place) && Progress(h, heap, s)
      modifies this
      ensures Calm(heap) && Progress(h, heap, s) && Emptied(old(heap), heap, q, place)
      ensures dropped == old(dropped) + if place in old(heap.objs[q].owners) then {q} else {}
    {
      ghost var h1 := heap;
      if place in heap.objs[q].owners {
        dropped := dropped + {q};
      }
      while place in heap.objs[q].owners
        modifies this`heap
        invariant Calm(heap) && Progress(h, heap, s) && q in heap.objs && Droppable(heap, place)
        invariant heap == SetObj(h1, q, h1.objs[q].(ctr := heap.objs[q].ctr, owners := heap.objs[q].owners))
        invariant heap.objs[q].owners[place := 0] == h1.objs[q].owners[place := 0]
        invariant place !in h1.objs[q].owners ==> heap == h1
        invariant heap.objs[q].owners == h1.objs[q].owners || Tagged(heap.objs[q].ctr)
        decreases |heap.objs[q].owners|
      {
        var shard := CurrShard();
        assert CountOk(heap, q);
        var op := Release(q, place, shard);
        EmptiedStep(h1, heap, q, place, shard);
        OpProgress(heap, op, {});
        ProgressTransitive(h, heap, Apply(heap, op), s, {}, s);
        heap := Apply(heap, op);
      }
      assert heap.objs[q].owners == h1.objs[q].owners[place := 0];
    }

    /** Drop the handles of `q` that the data and the weak reference of `p` hold. */
    method DropHeldBy(p: ObjId, q: ObjId, ghost h: Heap, ghost s: set<ObjId>, ghost x: Obj)
      requires Calm(heap) && q in heap.objs && p in heap.objs && heap.objs[p].life.Freed? && Progress(h, heap, s)
      requires heap.objs[q] == x.(life := if q == p then Freed else x.life)
      modifies this
      ensures Calm(heap) && Progress(h, heap, s)
      ensures q in heap.objs && heap == SetObj(old(heap), q, heap.objs[q]) && FreedFrom(x, heap.objs[q], {p}, q)
      ensures dropped == old(dropped) + if Affected(x, {p}) then {q} else {}
    {
      DropAt(q, InObject(p), h, s);
      ghost var h1 := heap;
      DropAt(q, InWeakRef(p), h, s);
      EmptiedBoth(x, old(heap), h1, heap, q, p);
    }

    /** Free `p`: its memory is gone, and its destructor, on this thread, drops the handles it held. */
    method FreeOne(p: ObjId, ghost h0: Heap, ghost s: set<ObjId>)
      requires Calm(heap) && p in heap.objs && heap.objs[p].life.ReadyToFree?
      requires Progress(h0, heap, s) && p in s && s <= h0.objs.Keys
      modifies this
      ensures Calm(heap) && Progress(h0, heap, s) && p in heap.objs && heap.objs[p].life.Freed?
      ensures forall q :: q in old(heap).objs && q != p ==>
        q in heap.objs && LifeStays(old(heap.objs[q]), heap.objs[q])
      ensures quiescent ==> FreedAll(old(heap), heap, {p}) && dropped == old(dropped) + Losers(old(heap), {p})
    {
      ghost var h := heap;
      OpProgress(heap, SetLife(p, Freed), {p});
      ProgressTransitive(h0, heap, Apply(heap, SetLife(p, Freed)), s, {p}, s);
      heap := Apply(heap, SetLife(p, Freed));
      DropContents(p, h0, s, h);
      ghost var h2 := heap;
      forall q | q in h.objs ensures q in h2.objs && (q != p ==> h2.objs[q].life == h.objs[q].life) && h2.objs[p].life.Freed? {
        assert FreedAt(h, h2, {p}, q) && FreedAt(h, h2, {p}, p);
      }
      if !quiescent {
        RunDestructor(h0, s);
        forall q | q in h.objs ensures q in heap.objs && LifeStays(h2.objs[q], heap.objs[q]) {
          assert ProgressAt(h2, heap, {}, q);
        }
      }
    }

    method DropContents(p: ObjId, ghost h0: Heap, ghost s: set<ObjId>, ghost h: Heap)
      requires Calm(heap) && p in h.objs && heap == SetObj(h, p, h.objs[p].(life := Freed)) && Progress(h0, heap, s)
      modifies this
      ensures Calm(heap) && Progress(h0, heap, s)
      ensures FreedAll(h, heap, {p}) && dropped == old(dropped) + Losers(h, {p})
    {
      var todo := heap.objs.Keys;
      MidwayStarts(h, p);
      while todo != {}
        invariant Calm(heap) && Progress(h0, heap, s) && Midway(h, heap, p, todo)
        invariant dropped == old(dropped) + (Losers(h, {p}) - todo)
      {
        var q :| q in todo;
        DropNext(p, q, h0, s, h, todo);
        todo := todo - {q};
      }
      MidwayDone(h, heap, p);
    }

    method DropNext(p: ObjId, q: ObjId, ghost h0: Heap, ghost s: set<ObjId>, ghost h: Heap, ghost todo: set<ObjId>)
      requires Calm(heap) && p in h.objs && Progress(h0, heap, s) && Midway(h, heap, p, todo) && q in todo
      modifies this
      ensures Calm(heap) && Progress(h0, heap, s) && Midway(h, heap, p, todo - {q})
      ensures dropped == old(dropped) + LoserOrNone(h, p, q)
      ensures Losers(h, {p}) - (todo - {q}) == Losers(h, {p}) - todo + LoserOrNone(h, p, q)
    {
      ghost var before := heap;
      assert MidwayAt(h, heap, p, todo, q) && MidwayAt(h, heap, p, todo, p);
      DropHeldBy(p, q, h0, s, h.objs[q]);
      MidwayStep(h, before, heap, p, todo, q);
      LosersStep(h, p, todo, q);
    }

    /** Whatever else a user's destructor does on this thread, and others meanwhile. */
    method RunDestructor(ghost h0: Heap, ghost s: set<ObjId>)
      requires Calm(heap) && Progress(h0, heap, s) && !quiescent
      modifies this
      ensures Calm(heap) && Progress(h0, heap, s) && Progress(old(heap), heap, {})
    {
      Interfere();
      OthersProgress(old(heap), heap);
      ProgressTransitive(h0, old(heap), heap, s, {}, s);
      var more: set<ObjId> := *;
      dropped := dropped + more;
    }

    method FreePointers(toFree: set<ObjId>)
      requires Calm(heap) && forall o :: o in toFree ==> o in heap.objs && heap.objs[o].life.ReadyToFree?
      modifies this
      ensures Calm(heap) && Progress(old(heap), heap, toFree)
      ensures forall o :: o in toFree ==> o in heap.objs && heap.objs[o].life.Freed?
      ensures toFree == {} ==> dropped == old(dropped)
      ensures quiescent ==> FreedAll(old(heap), heap, toFree) && dropped == old(dropped) + Losers(old(heap), toFree)
    {
      ghost var h, freed := heap, {};
      var todo := toFree;
      ProgressReflexive(h);
      ProgressWeaken(h, h, {}, toFree);
      FreedNothing(h);
      while todo != {}
        invariant todo <= toFree && freed == toFree - todo
        invariant Calm(heap) && Progress(h, heap, toFree)
        invariant forall o :: o in todo ==> o in heap.objs && heap.objs[o].life.ReadyToFree?
        invariant forall o :: o in freed ==> o in heap.objs && heap.objs[o].life.Freed?
        invariant toFree == {} ==> dropped == old(dropped)
        invariant quiescent ==> FreedAll(h, heap, freed) && dropped == old(dropped) + Losers(h, freed)
      {
        var p :| p in todo;
        ghost var h1 := heap;
        FreeOne(p, h, toFree);
        if quiescent {
          FreedStep(h, h1, heap, freed, p);
        }
        todo := todo - {p};
        freed := freed + {p};
      }
      assert freed == toFree;
    }

    /**
     One pass over `keys`: hazards, updates, frees. The objects to look at next are those that
     need a re-check and those dropped while freeing.
     */
    method OnePass(keys: set<ObjId>) returns (next: set<ObjId>, ghost mid: Heap)
      requires Calm(heap) && NoneReady(heap) && dropped == {}
      modifies this
      ensures Calm(heap) && NoneReady(heap) && dropped == {}
      ensures SomePass(TrackingOf(old(heap)), keys, TrackingOf(heap), next)
      ensures quiescent ==> ExactPass(old(heap), mid, heap, keys, next)
    {
      var hazards := TraverseSignals();
      var toFree, toReCheck := UpdateCounters(keys, hazards);
      mid := heap;
      assert forall o :: o in toFree ==> o in heap.objs && heap.objs[o].life.ReadyToFree?;
      FreePointers(toFree);
      next := toReCheck + dropped;
      PassIsPass(old(heap), mid, heap, keys, toFree, next, dropped);
      dropped := {};
    }

    /** Start tracking everything that was submitted; others go on submitting meanwhile. */
    method TakeNewCountersToTrack()
      requires Calm(heap) && NoneReady(heap)
      modifies this`heap
      ensures Calm(heap) && NoneReady(heap) && Took(old(heap), heap) && AllTracked(heap, PendingOf(old(heap)))
      ensures quiescent ==> heap == WithSubmitted(old(heap))
    {
      ghost var h := heap;
      var todo := PendingOf(heap);
      ghost var done := {};
      assert Took(h, heap) by { forall o ensures TookAt(h, heap, o) {} }
      WithSubmittedStarts(h);
      while todo != {}
        invariant Calm(heap) && Took(h, heap) && done + todo == PendingOf(h)
        invariant AllPending(heap, todo) && AllTracked(heap, done)
        invariant quiescent ==> heap == WithSome(h, done)
      {
        var o :| o in todo;
        TakeOne(o, h, todo, done);
        todo, done := todo - {o}, done + {o};
      }
      assert done == PendingOf(h);
      WithSubmittedEnds(h);
      forall o | o in heap.objs ensures !heap.objs[o].life.ReadyToFree? {
        assert TookAt(h, heap, o);
      }
    }

    method TakeOne(o: ObjId, ghost h: Heap, ghost todo: set<ObjId>, ghost done: set<ObjId>)
      requires Calm(heap) && Took(h, heap) && o in todo && AllPending(heap, todo) && AllTracked(heap, done)
      requires quiescent ==> heap == WithSome(h, done)
      modifies this`heap
      ensures Calm(heap) && Took(h, heap) && AllPending(heap, todo - {o}) && AllTracked(heap, done + {o})
      ensures quiescent ==> heap == WithSome(h, done + {o})
    {
      ghost var h1 := heap;
      Interfere();
      OthersTook(h, h1, heap);
      OthersKeepBoth(h1, heap, todo, done);
      TookOne(h, heap, o);
      KeepsCalm(heap, SetLife(o, DefaultState));
      if quiescent {
        WithOneMore(h, done, o);
      }
      heap := Apply(heap, SetLife(o, DefaultState));
    }

    /**
     One outer update: shallow is a single pass over everything tracked. `start` is the heap once
     what was submitted is tracked.
     */
    method Update(deep: bool) returns (finished: bool, passes: nat, ghost start: Heap)
      requires Calm(heap) && NoneReady(heap) && dropped == {}
      modifies this
      ensures Calm(heap) && NoneReady(heap)
      ensures Took(old(heap), start) && AllTracked(start, PendingOf(old(heap)))
      ensures quiescent ==> start == WithSubmitted(old(heap))
      ensures deep ==> passes <= 4 * |Tracked(TrackingOf(start))| + 2
      ensures deep && |Tracked(TrackingOf(start))| <= 24999 ==> finished
      ensures deep && quiescent && Settled(old(heap)) && finished ==> DeepInv(start, heap, {}) && DeepResult(start, heap)
      ensures !deep && quiescent ==>
        exists mid, next :: ExactPass(start, mid, heap, TrackedOf(start, start.objs.Keys), next)
    {
      TakeNewCountersToTrack();
      start := heap;
      if deep {
        if quiescent && Settled(old(heap)) {
          SubmittedSettled(old(heap));
        }
        finished, passes := DeepPasses();
      } else {
        var keys := TrackedOf(heap, heap.objs.Keys);
        var next, mid := OnePass(keys);
        finished, passes := true, 1;
      }
    }

    /**
     The passes of one deep update. `finished` says that it ended because nothing was left to
     re-check, which is certain below 25000 tracked objects, whatever other threads do. Without
     other threads, it then freed what `DeepCollection.DeepComplete` says.
     */
    method DeepPasses() returns (finished: bool, passes: nat)
      requires Calm(heap) && NoneReady(heap) && dropped == {}
      modifies this
      ensures Calm(heap) && NoneReady(heap)
      ensures passes <= 4 * |Tracked(TrackingOf(old(heap)))| + 2 && passes <= 100000
      ensures |Tracked(TrackingOf(old(heap)))| <= 24999 ==> finished
      ensures quiescent && Settled(old(heap)) && finished ==> DeepInv(old(heap), heap, {}) && DeepResult(old(heap), heap)
    {
      ghost var h0 := heap;
      var keys := TrackedOf(heap, heap.objs.Keys);
      var todo, mid := OnePass(keys);
      PassShrinks(TrackingOf(h0), keys, TrackingOf(heap), todo);
      if quiescent && Settled(h0) {
        FirstPass(h0, mid, heap, keys, todo);
      }
      passes := 0;
      while todo != {}
        invariant Calm(heap) && NoneReady(heap) && dropped == {}
        invariant passes + Measure(TrackingOf(heap), todo) <= 4 * |Tracked(TrackingOf(h0))| + 2
        invariant passes < 100000
        invariant quiescent && Settled(h0) ==> DeepInv(h0, heap, todo)
        decreases Measure(TrackingOf(heap), todo)
      {
        ghost var before, oldTodo := heap, todo;
        todo, mid := OnePass(todo);
        SomePassDecreases(TrackingOf(before), oldTodo, TrackingOf(heap), todo);
        if quiescent && Settled(h0) {
          NextPass(h0, before, mid, heap, oldTodo, todo);
        }
        passes := passes + 1;
        if passes == 100000 {
          break;
        }
      }
      finished := todo == {};
      if finished && quiescent && Settled(h0) {
        DeepResultHolds(h0, heap);
      }
    }
  }
}
