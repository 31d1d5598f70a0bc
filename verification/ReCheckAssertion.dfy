/**
 The collector asserts that a re-check without a tag never adds up to less than zero. This holds
 whether or not counts are owed: the scan that cleared the tags had added up to zero, and a
 shard that has no tag at the re-check has only grown since that scan read it.
 */
module ReCheckAssertion {
  import opened Counters
  import opened Heap
  import opened Protocol
  import opened FenceInvariant
  import opened FreeSafety

  /** What the last clearing scan saw of each shard is a lower bound, or the tag is back. */
  ghost predicate SeenOk(s: State, o: ObjId) {
    o in s.heap.objs && o in s.history.seen ==>
      && |s.history.seen[o]| <= |s.heap.objs[o].ctr|
      && forall j :: 0 <= j < |s.history.seen[o]| ==> ShardSince(s.heap.objs[o].ctr, s.history.seen[o], j)
  }

  /** A completed scan that added up to zero. */
  predicate SeenZero(s: State, o: ObjId) {
    && o in s.heap.objs && o in s.history.seen && |s.history.seen[o]| == |s.heap.objs[o].ctr|
    && Total(s.history.seen[o], |s.history.seen[o]|) == 0
  }

  predicate LifeSeen(s: State, o: ObjId) {
    o in s.heap.objs && s.heap.objs[o].life.RequiresReChecking? ==> SeenZero(s, o)
  }

  predicate PcSeen(s: State) {
    match s.col.pc
    case ClearSum(o, k, acc) =>
      if k == 0 then acc == 0
      else o in s.history.seen && |s.history.seen[o]| == k && acc == Total(s.history.seen[o], k)
    case ReSum(o, k, acc) => SeenZero(s, o) && k <= |s.history.seen[o]| && Total(s.history.seen[o], k) <= acc
    case _ => true
  }

  predicate SeenKnown(s: State, o: ObjId) { o in s.history.seen ==> o in s.heap.objs }

  ghost predicate SeenInv(s: State) {
    && PcSeen(s)
    && (forall o: ObjId :: SeenOk(s, o))
    && (forall o: ObjId :: LifeSeen(s, o))
    && (forall o: ObjId :: SeenKnown(s, o))
  }

  // ----- one step

  lemma SeenStays(s: State, a: Action, o: ObjId)
    requires Enabled(s, a) && !(HeapOpOf(s, a).Untag? && HeapOpOf(s, a).o == o)
    ensures o in HistoryAfter(s, a).seen <==> o in s.history.seen
    ensures o in s.history.seen ==> HistoryAfter(s, a).seen[o] == s.history.seen[o]
  {
  }

  /** An access other than a clearing one leaves the bound of a shard in place. */
  lemma ShardStays(h: Heap, op: HeapOp, o: ObjId, ns: seq<int>, j: nat)
    requires Ok(h, op) && o in h.objs && j < |h.objs[o].ctr| && j < |ns| && ShardSince(h.objs[o].ctr, ns, j)
    requires !(op.Untag? && op.o == o && op.k == j)
    ensures o in Apply(h, op).objs && |Apply(h, op).objs[o].ctr| == |h.objs[o].ctr|
    ensures ShardSince(Apply(h, op).objs[o].ctr, ns, j)
  {
    CounterStep(h, op, o, j);
  }

  /** A clearing access is the next one of the scan, and what it saw is remembered. */
  lemma ScanStep(s: State, a: Action, o: ObjId)
    requires Enabled(s, a) && PcSeen(s) && HeapOpOf(s, a).Untag? && HeapOpOf(s, a).o == o
    ensures s.col.pc.ClearSum? && s.col.pc.o == o && HeapOpOf(s, a).k == s.col.pc.k
    ensures o in HistoryAfter(s, a).seen
    ensures |HistoryAfter(s, a).seen[o]| == s.col.pc.k + 1
    ensures HistoryAfter(s, a).seen[o][s.col.pc.k] == s.heap.objs[o].ctr[s.col.pc.k].n
    ensures s.col.pc.k > 0 ==> HistoryAfter(s, a).seen[o] == s.history.seen[o] + [s.heap.objs[o].ctr[s.col.pc.k].n]
    ensures CollectorAfter(s, a).pc == ClearSum(o, s.col.pc.k + 1, s.col.pc.acc + s.heap.objs[o].ctr[s.col.pc.k].n)
  {
  }

  lemma KeepsSeen(s: State, a: Action, o: ObjId)
    requires Enabled(s, a) && PcSeen(s) && SeenOk(s, o)
    requires SeenKnown(s, o)
    ensures SeenOk(Do(s, a), o) && SeenKnown(Do(s, a), o)
  {
    var op, y' := HeapOpOf(s, a), HistoryAfter(s, a);
    if op.Untag? && op.o == o {
      ScanStep(s, a, o);
      forall j | 0 <= j < s.col.pc.k ensures ShardSince(Apply(s.heap, op).objs[o].ctr, y'.seen[o], j) {
        assert s.col.pc.k > 0 && y'.seen[o][j] == s.history.seen[o][j];
        ShardStays(s.heap, op, o, s.history.seen[o], j);
      }
    } else {
      SeenStays(s, a, o);
      if o in s.heap.objs {
        ObjectEvolves(s.heap, op, o);
        if o in s.history.seen {
          forall j | 0 <= j < |s.history.seen[o]| ensures ShardSince(Apply(s.heap, op).objs[o].ctr, s.history.seen[o], j) {
            assert ShardSince(s.heap.objs[o].ctr, s.history.seen[o], j);
            ShardStays(s.heap, op, o, s.history.seen[o], j);
          }
        }
      }
    }
  }

  /** An object comes to be re-checked only when a whole scan of it has added up to zero. */
  lemma KeepsLifeSeen(s: State, a: Action, o: ObjId)
    requires Inv(s) && Enabled(s, a) && PcSeen(s) && LifeSeen(s, o) && o in s.heap.objs
    ensures LifeSeen(Do(s, a), o)
  {
    var op := HeapOpOf(s, a);
    ObjectEvolves(s.heap, op, o);
    assert CountOk(s.heap, o);
    if op.Untag? && op.o == o {
      ScanStep(s, a, o);
    } else {
      SeenStays(s, a, o);
    }
  }

  lemma ScanKeepsPc(s: State)
    requires Enabled(s, Collect) && PcSeen(s) && s.col.pc.ClearSum?
    ensures PcSeen(Do(s, Collect))
  {
    var o, k := s.col.pc.o, s.col.pc.k;
    if k < |s.heap.objs[o].ctr| {
      ScanStep(s, Collect, o);
      if k > 0 {
        TotalExtends(s.history.seen[o], s.heap.objs[o].ctr[k].n, k);
      }
    }
  }

  lemma ReSumKeepsPc(s: State)
    requires Enabled(s, Collect) && PcSeen(s) && s.col.pc.ReSum? && SeenOk(s, s.col.pc.o)
    ensures PcSeen(Do(s, Collect))
  {
    var o, k := s.col.pc.o, s.col.pc.k;
    SeenStays(s, Collect, o);
    if k < |s.heap.objs[o].ctr| {
      assert ShardSince(s.heap.objs[o].ctr, s.history.seen[o], k);
    }
  }

  /** Nobody but the collector moves it on in the middle of an update. */
  lemma PcWaits(s: State, a: Action)
    requires Enabled(s, a) && !a.Collect? && (s.col.pc.ClearSum? || s.col.pc.ReSum?)
    ensures CollectorAfter(s, a).pc == s.col.pc && !HeapOpOf(s, a).Untag?
  {
  }

  lemma OthersKeepScan(s: State, a: Action)
    requires Enabled(s, a) && PcSeen(s) && !a.Collect? && s.col.pc.ClearSum?
    ensures PcSeen(Do(s, a))
  {
    PcWaits(s, a);
    SeenStays(s, a, s.col.pc.o);
  }

  lemma OthersKeepReSum(s: State, a: Action)
    requires Enabled(s, a) && PcSeen(s) && !a.Collect? && s.col.pc.ReSum?
    ensures PcSeen(Do(s, a))
  {
    PcWaits(s, a);
    SeenStays(s, a, s.col.pc.o);
    ObjectEvolves(s.heap, HeapOpOf(s, a), s.col.pc.o);
  }

  lemma VisitKeepsPcSeen(s: State, o: ObjId)
    requires Enabled(s, Visit(o)) && LifeSeen(s, o)
    ensures PcSeen(Do(s, Visit(o)))
  {
    SeenStays(s, Visit(o), o);
  }

  lemma CollectKeepsPcSeen(s: State)
    requires Enabled(s, Collect) && PcSeen(s) && (s.col.pc.ReSum? ==> SeenOk(s, s.col.pc.o))
    ensures PcSeen(Do(s, Collect))
  {
    if s.col.pc.ClearSum? {
      ScanKeepsPc(s);
    } else if s.col.pc.ReSum? {
      ReSumKeepsPc(s);
    }
  }

  lemma KeepsPcSeen(s: State, a: Action)
    requires SeenInv(s) && Enabled(s, a)
    ensures PcSeen(Do(s, a))
  {
    if a.Collect? {
      CollectKeepsPcSeen(s);
    } else if a.Visit? {
      VisitKeepsPcSeen(s, a.o);
    } else if s.col.pc.ClearSum? {
      OthersKeepScan(s, a);
    } else if s.col.pc.ReSum? {
      OthersKeepReSum(s, a);
    }
  }

  lemma KeepsLifeSeenToo(s: State, a: Action, o: ObjId)
    requires Inv(s) && Enabled(s, a) && PcSeen(s) && LifeSeen(s, o)
    ensures LifeSeen(Do(s, a), o)
  {
    if o in s.heap.objs {
      KeepsLifeSeen(s, a, o);
    } else if o in Apply(s.heap, HeapOpOf(s, a)).objs {
      ObjectAppears(s.heap, HeapOpOf(s, a), o);
    }
  }

  lemma KeepsSeenInv(s: State, a: Action)
    requires Inv(s) && SeenInv(s) && Enabled(s, a)
    ensures SeenInv(Do(s, a))
  {
    var s' := Do(s, a);
    KeepsPcSeen(s, a);
    forall o: ObjId ensures SeenOk(s', o) { KeepsSeen(s, a, o); }
    forall o: ObjId ensures SeenKnown(s', o) { KeepsSeen(s, a, o); }
    forall o: ObjId ensures LifeSeen(s', o) { KeepsLifeSeenToo(s, a, o); }
  }

  lemma {:induction false} RunSeen(run: seq<State>, k: nat)
    requires IsRun(run) && k < |run|
    ensures SeenInv(run[k])
  {
    if k > 0 {
      RunSeen(run, k - 1);
      var a := StepOf(run, k);
      KeepsSeenInv(run[k - 1], a);
    }
  }

  /** The assertion holds in every run: a finished re-check without a tag is never negative. */
  lemma NeverNegative(s: State)
    requires Reachable(s) && s.col.pc.ReSum? && s.col.pc.o in s.heap.objs
    requires s.col.pc.k == |s.heap.objs[s.col.pc.o].ctr|
    ensures s.col.pc.acc >= 0
  {
    var run :| IsRun(run) && run[|run| - 1] == s;
    RunSeen(run, |run| - 1);
  }
}
