/** When a weak reference can be relied on. */
module Upgrade {
  import opened Options
  import opened Heap
  import opened Protocol
  import opened FreeSafety
  import opened HeapEffects
  import opened Calls

  /**
   In every state of the run up to `j` in which `o` exists, someone holds a handle to it, and no
   heavy fence came between the two accesses of a `compare_and_set` of `o`.
   */
  ghost predicate AlwaysOwned(run: seq<State>, j: nat, o: ObjId)
    requires j < |run|
  {
    forall k :: 0 <= k <= j ==>
      && (o in run[k].heap.objs ==> Owned(run[k].heap, o))
      && (o in run[k].history.fence ==> run[k].history.fence[o].owed == multiset{})
  }

  lemma {:induction false} FenceOwned(run: seq<State>, j: nat, o: ObjId)
    requires IsRun(run) && j < |run| && AlwaysOwned(run, j, o)
    ensures o in run[j].history.fence ==> run[j].history.fence[o].owners != multiset{}
  {
    if j > 0 {
      FenceOwned(run, j - 1, o);
      var a := StepOf(run, j);
    }
  }

  /** The collector cuts the back reference only of an object that nobody owned at the last fence. */
  lemma CutNeedsUnowned(s: State, a: Action, o: ObjId)
    requires Inv(s) && Enabled(s, a) && HasBackRef(s.heap.objs, o)
    requires HeapOpOf(s, a) == CutBackRef(s.heap.objs[o].weak.value)
    ensures o in s.history.fence && (s.history.fence[o].owed == multiset{} ==> s.history.fence[o].owners == multiset{})
  {
    assert WeakRefOk(s.heap.objs, o) && WeakRefOk(s.heap.objs, s.col.pc.o);
  }

  lemma BackRefKept(s: State, a: Action, o: ObjId)
    requires Inv(s) && Enabled(s, a) && o in s.heap.objs
    requires o in s.history.fence ==>
      s.history.fence[o].owners != multiset{} && s.history.fence[o].owed == multiset{}
    requires s.heap.objs[o].weak.Some? ==> HasBackRef(s.heap.objs, o)
    ensures var objs := Do(s, a).heap.objs; o in objs && (objs[o].weak.Some? ==> HasBackRef(objs, o))
  {
    var op := HeapOpOf(s, a);
    ObjectEvolves(s.heap, op, o);
    if s.heap.objs[o].weak.Some? {
      var w := s.heap.objs[o].weak.value;
      ObjectEvolves(s.heap, op, w);
      if op == CutBackRef(w) { CutNeedsUnowned(s, a, o); }
    }
  }

  lemma BackRefWhileOwned(run: seq<State>, j: nat, o: ObjId)
    requires IsRun(run) && j < |run| && AlwaysOwned(run, j, o)
    requires o in run[j].heap.objs && run[j].heap.objs[o].weak.Some?
    ensures ReadLoc(run[j].heap, BackRef(run[j].heap.objs[o].weak.value)) == Some(o)
  {
    HasBackRefWhileOwned(run, j, o);
    RunInv(run, j);
    assert WeakRefOk(run[j].heap.objs, o);
  }

  /** If the strong count never reached zero, an upgrade returns a new, counted handle to the object. */
  lemma UpgradeWhileOwned(run: seq<State>, j: nat, o: ObjId, w: ObjId, t: nat, shard: nat) returns (s': State)
    requires IsRun(run) && j < |run| && AlwaysOwned(run, j, o)
    requires o in run[j].heap.objs && run[j].heap.objs[o].weak == Some(w)
    requires Owned(run[j].heap, w) && t < |run[j].thr| && run[j].thr[t].pc.Idle? && shard < run[j].heap.shards
    ensures Steps(run[j], Enters(t, BackRef(w)) + CountsIt(t, shard), s')
    ensures OnlyThread(run[j], s', t) && Returned(run[j].thr[t], s'.thr[t])
    ensures Acquired(run[j].heap, s'.heap, o, InThread(t))
  {
    BackRefWhileOwned(run, j, o);
    PrefixReachable(run, j);
    s' := LoadCall(run[j], t, BackRef(w), shard);
  }

  lemma PrefixReachable(run: seq<State>, j: nat)
    requires IsRun(run) && j < |run|
    ensures Reachable(run[j])
  {
    var prefix := run[..j + 1];
    forall k | 0 <= k < |prefix| - 1 ensures NextAt(prefix, k) {
      assert NextAt(run, k);
    }
    assert IsRun(prefix) && prefix[|prefix| - 1] == run[j];
  }

  lemma {:induction false} HasBackRefWhileOwned(run: seq<State>, j: nat, o: ObjId)
    requires IsRun(run) && j < |run| && AlwaysOwned(run, j, o) && o in run[j].heap.objs
    ensures run[j].heap.objs[o].weak.Some? ==> HasBackRef(run[j].heap.objs, o)
  {
    if j > 0 {
      var a := StepOf(run, j);
      var s := run[j - 1];
      if o in s.heap.objs {
        HasBackRefWhileOwned(run, j - 1, o);
        FenceOwned(run, j - 1, o);
        BackRefKept(s, a, o);
      } else {
        ObjectAppears(s.heap, HeapOpOf(s, a), o);
      }
    }
  }
}
