/**
 What the accesses of the collector thread, and those of other threads between them, do to the
 heap: the vocabulary in which the contracts of class `Collector` are written.
 */
module CollectorEffects {
  import opened Options
  import opened Counters
  import opened Heap
  import opened PassBound

  // ----- what other threads may do

  predicate IsMutatorOp(h: Heap, op: HeapOp) {
    match op
    case SetLife(o, life) => life.Pending? && o in h.objs && h.objs[o].life.Unsubmitted?
    case Untag(_, _) => false
    case CutBackRef(_) => false
    case Install(_, _, _, _) => false
    case Compensate(_, _, _) => false
    case _ => true
  }

  /** Other threads never clear a tag, and a decrement leaves one. */
  predicate ShardOthers(c: Counter, d: Counter) { !d.tag ==> !c.tag && c.n <= d.n }

  predicate ObjOthers(x: Obj, y: Obj) {
    && y.addr == x.addr && |y.ctr| == |x.ctr|
    && (forall j :: 0 <= j < |x.ctr| ==> ShardOthers(x.ctr[j], y.ctr[j]))
    && (y.life == x.life || (x.life.Unsubmitted? && y.life.Pending?))
    && (x.weak.Some? ==> y.weak == x.weak)
    && y.backRef == x.backRef
  }

  predicate IsNew(x: Obj) { x.life.Unsubmitted? || x.life.Pending? }

  predicate OthersAt(h: Heap, h': Heap, o: ObjId) {
    && (o in h.objs ==> o in h'.objs && ObjOthers(h.objs[o], h'.objs[o]))
    && (o in h'.objs && o !in h.objs ==> IsNew(h'.objs[o]))
  }

  ghost predicate Others(h: Heap, h': Heap) {
    h'.shards == h.shards && forall o {:trigger OthersAt(h, h', o)} :: OthersAt(h, h', o)
  }

  lemma MutatorIsOther(h: Heap, op: HeapOp)
    requires Ok(h, op) && IsMutatorOp(h, op)
    ensures Others(h, Apply(h, op))
  {
    forall o ensures OthersAt(h, Apply(h, op), o) {
      if o in h.objs {
        MutatorOnObj(h, op, o);
      } else if o in Apply(h, op).objs {
        ObjectAppears(h, op, o);
      }
    }
  }

  lemma MutatorOnObj(h: Heap, op: HeapOp, o: ObjId)
    requires Ok(h, op) && IsMutatorOp(h, op) && o in h.objs
    ensures o in Apply(h, op).objs && ObjOthers(h.objs[o], Apply(h, op).objs[o])
  {
    ObjectEvolves(h, op, o);
    if op.Exchange? {
      ExchangeEvolves(h, op.t, op.c, op.new_, o);
    }
  }

  lemma OthersTransitive(h: Heap, h1: Heap, h2: Heap)
    requires Others(h, h1) && Others(h1, h2)
    ensures Others(h, h2)
  {
    forall o ensures OthersAt(h, h2, o) {
      assert OthersAt(h, h1, o) && OthersAt(h1, h2, o);
      if o in h.objs {
        forall j | 0 <= j < |h.objs[o].ctr| ensures ShardOthers(h.objs[o].ctr[j], h2.objs[o].ctr[j]) {
          assert ShardOthers(h.objs[o].ctr[j], h1.objs[o].ctr[j]);
        }
      }
    }
  }

  lemma OthersReflexive(h: Heap)
    ensures Others(h, h)
  {
    forall o ensures OthersAt(h, h, o) {}
  }

  // ----- tags

  predicate Tagged(ctr: seq<Counter>) { exists j :: 0 <= j < |ctr| && ctr[j].tag }

  function Untagged(ctr: seq<Counter>): (r: seq<Counter>)
    ensures |r| == |ctr| && !Tagged(r)
  {
    seq(|ctr|, j requires 0 <= j < |ctr| => ClearTag(ctr[j]))
  }

  /** The first `k` tags cleared. */
  function Cleared(ctr: seq<Counter>, k: nat): seq<Counter>
    requires k <= |ctr|
  {
    Untagged(ctr)[..k] + ctr[k..]
  }

  /** `h'` is `h` with the first `k` tags of `o` cleared, and `sum` is what those shards held. */
  predicate ClearedUpTo(h: Heap, h': Heap, o: ObjId, k: nat, sum: int) {
    && o in h.objs && k <= |h.objs[o].ctr|
    && h' == SetObj(h, o, h.objs[o].(ctr := Cleared(h.objs[o].ctr, k)))
    && sum == SumTo(h.objs[o].ctr, k)
  }

  lemma ClearedStep(h: Heap, h': Heap, o: ObjId, k: nat, sum: int)
    requires ClearedUpTo(h, h', o, k, sum) && k < |h.objs[o].ctr|
    ensures Ok(h', Untag(o, k))
    ensures ClearedUpTo(h, Apply(h', Untag(o, k)), o, k + 1, sum + h'.objs[o].ctr[k].n)
  {
    var ctr := h.objs[o].ctr;
    assert Cleared(ctr, k)[k] == ctr[k];
    assert Cleared(ctr, k)[k := ClearTag(ctr[k])] == Cleared(ctr, k + 1);
  }

  /** The clearing scan reads shard `k`: the bounds from before it still hold, and there is one more. */
  lemma ScanGoesOn(ctr: seq<Counter>, ctr': seq<Counter>, seen: seq<int>, k: nat, c: Counter)
    requires |ctr| == |ctr'| && k == |seen| < |ctr| && ctr'[k] == ClearTag(c)
    requires forall j :: 0 <= j < |ctr| && j != k ==> ShardOthers(ctr[j], ctr'[j])
    requires forall j :: 0 <= j < k ==> ShardSince(ctr, seen, j)
    ensures forall j :: 0 <= j < k + 1 ==> ShardSince(ctr', seen + [c.n], j)
  {
    forall j | 0 <= j < k + 1 ensures ShardSince(ctr', seen + [c.n], j) {
      if j < k {
        assert ShardOthers(ctr[j], ctr'[j]) && ShardSince(ctr, seen, j);
      }
    }
  }

  lemma ClearedStarts(h: Heap, o: ObjId)
    requires o in h.objs
    ensures ClearedUpTo(h, h, o, 0, 0)
  {
    assert Cleared(h.objs[o].ctr, 0) == h.objs[o].ctr;
  }

  lemma ClearedEnds(h: Heap, h': Heap, o: ObjId, sum: int)
    requires o in h.objs && ClearedUpTo(h, h', o, |h.objs[o].ctr|, sum)
    ensures h' == SetObj(h, o, h.objs[o].(ctr := Untagged(h.objs[o].ctr))) && sum == Sum(h.objs[o].ctr)
  {
    assert Cleared(h.objs[o].ctr, |h.objs[o].ctr|) == Untagged(h.objs[o].ctr);
  }

  // ----- what an update does to the object, when nothing interferes

  predicate IsTracked(x: Obj) { x.life.DefaultState? || x.life.RequiresReChecking? }

  function AfterUpdate(x: Obj, upgradable: bool): Obj {
    match x.life
    case DefaultState =>
      if Sum(x.ctr) == 0 then x.(ctr := Untagged(x.ctr), life := RequiresReChecking) else x
    case RequiresReChecking =>
      if Tagged(x.ctr) then x.(life := DefaultState)
      else if Sum(x.ctr) != 0 then x.(life := DefaultState)
      else if upgradable then x
      else x.(life := ReadyToFree)
    case _ => x
  }

  /** Everything about an object but its back reference. */
  function Core(x: Obj): Obj { x.(backRef := None) }

  ghost predicate SameCoreExcept(h: Heap, h': Heap, o: ObjId) {
    && h'.objs.Keys == h.objs.Keys && h'.cells == h.cells
    && (forall p :: p in h.objs && p != o ==> Core(h'.objs[p]) == Core(h.objs[p]))
  }

  // ----- what an update leaves alone, whatever interferes

  /** The back reference to `o` has been cleared. */
  predicate IsCut(h: Heap, o: ObjId) {
    o in h.objs && h.objs[o].weak.Some? && !HasBackRef(h.objs, o)
  }

  predicate LifeStays(x: Obj, y: Obj) { y.life == x.life || (x.life.Unsubmitted? && y.life.Pending?) }

  predicate ProgressAt(h: Heap, h': Heap, s: set<ObjId>, o: ObjId) {
    && (o in h.objs ==> o in h'.objs && h'.objs[o].addr == h.objs[o].addr)
    && (o in h.objs && o !in s ==> LifeStays(h.objs[o], h'.objs[o]))
    && (IsCut(h, o) ==> IsCut(h', o))
    && (o in h'.objs && o !in h.objs ==> IsNew(h'.objs[o]))
  }

  /** Only the objects of `s` may have changed state. */
  ghost predicate Progress(h: Heap, h': Heap, s: set<ObjId>) {
    h'.shards == h.shards && forall o {:trigger ProgressAt(h, h', s, o)} :: ProgressAt(h, h', s, o)
  }

  lemma OthersProgress(h: Heap, h': Heap)
    requires Others(h, h') && WeakAgree(h)
    ensures Progress(h, h', {})
  {
    forall o ensures ProgressAt(h, h', {}, o) {
      assert OthersAt(h, h', o);
      if IsCut(h, o) {
        assert WeakRefOk(h.objs, o) && OthersAt(h, h', h.objs[o].weak.value);
      }
    }
  }

  lemma ProgressReflexive(h: Heap)
    ensures Progress(h, h, {})
  {
    forall o ensures ProgressAt(h, h, {}, o) {}
  }

  lemma ProgressWeaken(h: Heap, h': Heap, s: set<ObjId>, s': set<ObjId>)
    requires Progress(h, h', s) && s <= s'
    ensures Progress(h, h', s')
  {
    forall o ensures ProgressAt(h, h', s', o) { assert ProgressAt(h, h', s, o); }
  }

  lemma ProgressTransitive(h: Heap, h1: Heap, h2: Heap, s: set<ObjId>, s': set<ObjId>, u: set<ObjId>)
    requires Progress(h, h1, s) && Progress(h1, h2, s') && s <= u && s' <= u && s' <= h.objs.Keys
    ensures Progress(h, h2, u)
  {
    forall o ensures ProgressAt(h, h2, u, o) {
      assert ProgressAt(h, h1, s, o) && ProgressAt(h1, h2, s', o);
    }
  }

  lemma OpProgress(h: Heap, op: HeapOp, s: set<ObjId>)
    requires Calm(h) && Ok(h, op) && !op.Install? && (op.SetLife? ==> op.o in s)
    ensures Calm(Apply(h, op)) && Progress(h, Apply(h, op), s)
  {
    KeepsCalm(h, op);
    forall o ensures ProgressAt(h, Apply(h, op), s, o) { OpProgressAt(h, op, s, o); }
  }

  lemma OpProgressAt(h: Heap, op: HeapOp, s: set<ObjId>, o: ObjId)
    requires WeakAgree(h) && Ok(h, op) && (op.SetLife? ==> op.o in s)
    ensures ProgressAt(h, Apply(h, op), s, o)
  {
    if o in h.objs {
      ObjectEvolves(h, op, o);
      if IsCut(h, o) {
        assert WeakRefOk(h.objs, o);
        ObjectEvolves(h, op, h.objs[o].weak.value);
      }
    } else if o in Apply(h, op).objs {
      ObjectAppears(h, op, o);
    }
  }

  // ----- the outcome of one update

  /** Under interference: an object re-checked twice in a row had its back reference cleared in between. */
  predicate Outcome(h: Heap, h': Heap, o: ObjId) {
    && o in h.objs && o in h'.objs
    && (IsTracked(h'.objs[o]) || h'.objs[o].life.ReadyToFree?)
    && (h.objs[o].life.DefaultState? ==> !h'.objs[o].life.ReadyToFree?)
    && (h.objs[o].life.RequiresReChecking? && h'.objs[o].life.RequiresReChecking? ==> !IsCut(h, o) && IsCut(h', o))
  }

  /** An update of this object, if nothing interferes, clears its back reference. */
  predicate UpdateCuts(x: Obj) { x.life.RequiresReChecking? && !Tagged(x.ctr) && Sum(x.ctr) == 0 }

  /** Without interference: `AfterUpdate`, and only the weak link of `o` is affected. */
  ghost predicate Exactly(h: Heap, h': Heap, o: ObjId) {
    && o in h.objs && SameCoreExcept(h, h', o)
    && Core(h'.objs[o]) == Core(AfterUpdate(h.objs[o], HasBackRef(h.objs, o)))
    && HasBackRef(h'.objs, o) == (HasBackRef(h.objs, o) && !UpdateCuts(h.objs[o]))
    && (forall p :: p in h.objs && p != o ==> HasBackRef(h'.objs, p) == HasBackRef(h.objs, p))
  }

  lemma SetLifeExact(h: Heap, o: ObjId, life: Life)
    requires o in h.objs && !h.objs[o].life.Freed?
    ensures var h' := Apply(h, SetLife(o, life));
      && SameCoreExcept(h, h', o) && h'.objs[o] == h.objs[o].(life := life)
      && (forall p :: p in h.objs ==> HasBackRef(h'.objs, p) == HasBackRef(h.objs, p))
  {
  }

  lemma DefaultExact(h: Heap, o: ObjId)
    requires o in h.objs && h.objs[o].life.DefaultState?
    ensures Sum(h.objs[o].ctr) != 0 ==> Exactly(h, h, o)
    ensures Sum(h.objs[o].ctr) == 0 ==>
      Exactly(h, Apply(SetObj(h, o, h.objs[o].(ctr := Untagged(h.objs[o].ctr))), SetLife(o, RequiresReChecking)), o)
  {
  }

  lemma CutExact(h: Heap, o: ObjId)
    requires WeakAgree(h) && HasBackRef(h.objs, o)
    ensures var h' := Apply(h, CutBackRef(h.objs[o].weak.value));
      && SameCoreExcept(h, h', o) && Core(h'.objs[o]) == Core(h.objs[o]) && IsCut(h', o)
      && (forall p :: p in h.objs && p != o ==> HasBackRef(h'.objs, p) == HasBackRef(h.objs, p))
  {
    var w := h.objs[o].weak.value;
    var h' := Apply(h, CutBackRef(w));
    assert WeakRefOk(h.objs, o);
    forall p | p in h.objs && p != o ensures HasBackRef(h'.objs, p) == HasBackRef(h.objs, p) {
      assert WeakRefOk(h.objs, p);
    }
  }

  // ----- taking over what was submitted

  predicate LifeTook(x: Life, y: Life) {
    y == x || (x.Unsubmitted? && (y.Pending? || y.DefaultState?)) || (x.Pending? && y.DefaultState?)
  }

  predicate TookAt(h: Heap, h': Heap, o: ObjId) {
    && (o in h.objs ==> o in h'.objs && LifeTook(h.objs[o].life, h'.objs[o].life))
    && (o in h'.objs && o !in h.objs ==> LifeTook(Unsubmitted, h'.objs[o].life))
  }

  /** Others act, and submitted objects come to be tracked; nothing else changes state. */
  ghost predicate Took(h: Heap, h': Heap) {
    h'.shards == h.shards && forall o {:trigger TookAt(h, h', o)} :: TookAt(h, h', o)
  }

  lemma OthersTook(h: Heap, h1: Heap, h2: Heap)
    requires Took(h, h1) && Others(h1, h2)
    ensures Took(h, h2)
  {
    forall o ensures TookAt(h, h2, o) {
      assert TookAt(h, h1, o) && OthersAt(h1, h2, o);
    }
  }

  lemma TookOne(h: Heap, h1: Heap, o: ObjId)
    requires Took(h, h1) && o in h1.objs && h1.objs[o].life.Pending?
    ensures Took(h, Apply(h1, SetLife(o, DefaultState)))
  {
    var h2 := Apply(h1, SetLife(o, DefaultState));
    assert TookAt(h, h1, o);
    forall p ensures TookAt(h, h2, p) {
      assert TookAt(h, h1, p);
    }
  }

  function PendingOf(h: Heap): set<ObjId> { set o | o in h.objs && h.objs[o].life.Pending? }

  /** All of `s` is waiting to be taken over. */
  ghost predicate AllPending(h: Heap, s: set<ObjId>) { forall o :: o in s ==> o in h.objs && h.objs[o].life.Pending? }

  ghost predicate AllTracked(h: Heap, s: set<ObjId>) { forall o :: o in s ==> o in h.objs && h.objs[o].life.DefaultState? }

  lemma OthersKeepBoth(h: Heap, h': Heap, s: set<ObjId>, t: set<ObjId>)
    requires Others(h, h') && AllPending(h, s) && AllTracked(h, t)
    ensures AllPending(h', s) && AllTracked(h', t)
  {
    forall o | o in s + t ensures o in h'.objs && h'.objs[o].life == h.objs[o].life {
      assert OthersAt(h, h', o);
    }
  }

  function Submitted(x: Obj): Obj { if x.life.Pending? then x.(life := DefaultState) else x }

  function WithSubmitted(h: Heap): Heap { h.(objs := map o | o in h.objs :: Submitted(h.objs[o])) }

  /** Of the submitted objects, those of `s` have been taken over. */
  function WithSome(h: Heap, s: set<ObjId>): Heap {
    h.(objs := map o | o in h.objs :: if o in s then h.objs[o].(life := DefaultState) else h.objs[o])
  }

  lemma WithSubmittedStarts(h: Heap)
    ensures WithSome(h, {}) == h
  {
    assert WithSome(h, {}).objs == h.objs;
  }

  lemma WithOneMore(h: Heap, s: set<ObjId>, o: ObjId)
    requires o in h.objs && !h.objs[o].life.Freed? && Ok(WithSome(h, s), SetLife(o, DefaultState))
    ensures Apply(WithSome(h, s), SetLife(o, DefaultState)) == WithSome(h, s + {o})
  {
    assert Apply(WithSome(h, s), SetLife(o, DefaultState)).objs == WithSome(h, s + {o}).objs;
  }

  lemma WithSubmittedEnds(h: Heap)
    ensures WithSome(h, PendingOf(h)) == WithSubmitted(h)
  {
    assert WithSome(h, PendingOf(h)).objs == WithSubmitted(h).objs;
  }

  // ----- the outcome of one pass over a set of objects

  ghost predicate NoneReady(h: Heap) { forall o :: o in h.objs ==> !h.objs[o].life.ReadyToFree? }

  predicate TrackedIn(h: Heap, o: ObjId) { o in h.objs && IsTracked(h.objs[o]) }

  function TrackedOf(h: Heap, keys: set<ObjId>): set<ObjId> { set o | o in keys && TrackedIn(h, o) }

  function ReadyOf(h: Heap, s: set<ObjId>): set<ObjId> {
    set o | o in s && o in h.objs && h.objs[o].life.ReadyToFree?
  }

  function ReCheckedOf(h: Heap, s: set<ObjId>): set<ObjId> {
    set o | o in s && o in h.objs && h.objs[o].life.RequiresReChecking?
  }

  predicate UpdatedAt(h: Heap, h': Heap, done: set<ObjId>, o: ObjId) {
    o in done ==> TrackedIn(h, o) && Outcome(h, h', o)
  }

  /** The objects of `done` were updated, and nothing else changed state. */
  ghost predicate Updated(h: Heap, h': Heap, done: set<ObjId>) {
    Progress(h, h', done) && forall o {:trigger UpdatedAt(h, h', done, o)} :: UpdatedAt(h, h', done, o)
  }

  lemma UpdatedStep(h: Heap, h1: Heap, h2: Heap, done: set<ObjId>, o: ObjId)
    requires Updated(h, h1, done) && o !in done && TrackedIn(h, o)
    requires Progress(h1, h2, {o}) && Outcome(h1, h2, o)
    ensures Updated(h, h2, done + {o})
  {
    ProgressTransitive(h, h1, h2, done, {o}, done + {o});
    forall p ensures UpdatedAt(h, h2, done + {o}, p) {
      assert UpdatedAt(h, h1, done, p) && ProgressAt(h, h1, done, p) && ProgressAt(h1, h2, {o}, p);
    }
  }

  function AfterVisit(h: Heap, o: ObjId, hazards: set<nat>): Obj
    requires o in h.objs
  {
    if h.objs[o].addr in hazards then h.objs[o].(life := DefaultState)
    else AfterUpdate(h.objs[o], HasBackRef(h.objs, o))
  }

  function RefAfterVisit(h: Heap, o: ObjId, hazards: set<nat>): bool
    requires o in h.objs
  {
    HasBackRef(h.objs, o) && (h.objs[o].addr in hazards || !UpdateCuts(h.objs[o]))
  }

  predicate VisitedAt(h: Heap, h': Heap, done: set<ObjId>, hazards: set<nat>, o: ObjId) {
    o in h.objs ==>
      && o in h'.objs
      && (o in done ==>
            Core(h'.objs[o]) == Core(AfterVisit(h, o, hazards)) && HasBackRef(h'.objs, o) == RefAfterVisit(h, o, hazards))
      && (o !in done ==> Core(h'.objs[o]) == Core(h.objs[o]) && HasBackRef(h'.objs, o) == HasBackRef(h.objs, o))
  }

  /** Without interference: every object of `done` got its `AfterVisit`. */
  ghost predicate Visited(h: Heap, h': Heap, done: set<ObjId>, hazards: set<nat>) {
    && h'.objs.Keys == h.objs.Keys && h'.cells == h.cells
    && forall o {:trigger VisitedAt(h, h', done, hazards, o)} :: VisitedAt(h, h', done, hazards, o)
  }

  /** What an update makes of an object does not depend on the object's own back reference. */
  lemma AfterVisitCore(h: Heap, h1: Heap, hazards: set<nat>, o: ObjId)
    requires o in h.objs && o in h1.objs && Core(h1.objs[o]) == Core(h.objs[o])
    requires HasBackRef(h1.objs, o) == HasBackRef(h.objs, o)
    ensures Core(AfterVisit(h1, o, hazards)) == Core(AfterVisit(h, o, hazards))
    ensures RefAfterVisit(h1, o, hazards) == RefAfterVisit(h, o, hazards)
  {
    assert h1.objs[o] == Core(h.objs[o]).(backRef := h1.objs[o].backRef);
  }

  lemma VisitedStep(h: Heap, h1: Heap, h2: Heap, done: set<ObjId>, hazards: set<nat>, o: ObjId)
    requires Visited(h, h1, done, hazards) && o in h.objs && o !in done
    requires SameCoreExcept(h1, h2, o) && Core(h2.objs[o]) == Core(AfterVisit(h1, o, hazards))
    requires HasBackRef(h2.objs, o) == RefAfterVisit(h1, o, hazards)
    requires forall p :: p in h1.objs && p != o ==> HasBackRef(h2.objs, p) == HasBackRef(h1.objs, p)
    ensures Visited(h, h2, done + {o}, hazards)
  {
    assert VisitedAt(h, h1, done, hazards, o);
    AfterVisitCore(h, h1, hazards, o);
    forall p ensures VisitedAt(h, h2, done + {o}, hazards, p) {
      assert VisitedAt(h, h1, done, hazards, p);
    }
  }

  // ----- freeing

  /** The object whose data or weak reference holds the handle. */
  function Container(place: Place): Option<ObjId> {
    match place
    case InObject(p) => Some(p)
    case InWeakRef(p) => Some(p)
    case _ => None
  }

  predicate StoredIn(place: Place, s: set<ObjId>) { Container(place).Some? && Container(place).value in s }

  /** Some handle to the object is stored in an object of `s`. */
  ghost predicate Affected(x: Obj, s: set<ObjId>) { exists place :: place in x.owners && StoredIn(place, s) }

  ghost predicate FreedFrom(x: Obj, y: Obj, s: set<ObjId>, o: ObjId) {
    && y.addr == x.addr && y.weak == x.weak && y.backRef == x.backRef
    && y.life == (if o in s then Freed else x.life)
    && (forall place :: y.owners[place] == if StoredIn(place, s) then 0 else x.owners[place])
    && (if Affected(x, s) then Tagged(y.ctr) else y.ctr == x.ctr)
  }

  ghost predicate FreedAt(h: Heap, h': Heap, s: set<ObjId>, o: ObjId) {
    o in h.objs ==> o in h'.objs && FreedFrom(h.objs[o], h'.objs[o], s, o)
  }

  /** Without interference: the objects of `s` are freed with all the handles stored in them. */
  ghost predicate FreedAll(h: Heap, h': Heap, s: set<ObjId>) {
    && h'.objs.Keys == h.objs.Keys && h'.cells == h.cells
    && forall o {:trigger FreedAt(h, h', s, o)} :: FreedAt(h, h', s, o)
  }

  /** The objects that lose a handle when those of `s` are freed. */
  ghost function Losers(h: Heap, s: set<ObjId>): set<ObjId> {
    set o | o in h.objs && Affected(h.objs[o], s)
  }

  /** All handles of `q` at `place` are gone, and nothing else but its counts has changed. */
  predicate Emptied(h: Heap, h': Heap, q: ObjId, place: Place) {
    && q in h.objs && q in h'.objs
    && h' == SetObj(h, q, h.objs[q].(ctr := h'.objs[q].ctr, owners := h.objs[q].owners[place := 0]))
    && (if place in h.objs[q].owners then Tagged(h'.objs[q].ctr) else h'.objs[q].ctr == h.objs[q].ctr)
  }

  lemma EmptiedStep(h: Heap, h1: Heap, q: ObjId, place: Place, shard: nat)
    requires q in h.objs && q in h1.objs && place in h.objs[q].owners && Ok(h1, Release(q, place, shard))
    requires h1 == SetObj(h, q, h.objs[q].(ctr := h1.objs[q].ctr, owners := h1.objs[q].owners))
    requires h1.objs[q].owners[place := 0] == h.objs[q].owners[place := 0]
    ensures var h2 := Apply(h1, Release(q, place, shard));
      && h2 == SetObj(h, q, h.objs[q].(ctr := h2.objs[q].ctr, owners := h2.objs[q].owners))
      && h2.objs[q].owners[place := 0] == h.objs[q].owners[place := 0]
      && |h2.objs[q].owners| == |h1.objs[q].owners| - 1
      && Tagged(h2.objs[q].ctr)
  {
    assert Apply(h1, Release(q, place, shard)).objs[q].ctr[shard].tag;
  }

  /** `q` loses what object `p`, being freed, holds of it. */
  lemma EmptiedBoth(x: Obj, h: Heap, h1: Heap, h2: Heap, q: ObjId, p: ObjId)
    requires Emptied(h, h1, q, InObject(p)) && Emptied(h1, h2, q, InWeakRef(p))
    requires h.objs[q] == x.(life := if q == p then Freed else x.life)
    ensures h2 == SetObj(h, q, h2.objs[q]) && FreedFrom(x, h2.objs[q], {p}, q)
    ensures Affected(x, {p}) <==> InObject(p) in x.owners || InWeakRef(p) in x.owners
  {
    assert StoredIn(InObject(p), {p}) && StoredIn(InWeakRef(p), {p});
  }

  /** Midway through freeing `p`: the objects of `todo` are still as they were. */
  ghost predicate MidwayAt(h: Heap, h': Heap, p: ObjId, todo: set<ObjId>, q: ObjId) {
    q in h.objs && q in h'.objs &&
    if q in todo then h'.objs[q] == h.objs[q].(life := if q == p then Freed else h.objs[q].life)
    else FreedFrom(h.objs[q], h'.objs[q], {p}, q)
  }

  ghost predicate Midway(h: Heap, h': Heap, p: ObjId, todo: set<ObjId>) {
    && h'.objs.Keys == h.objs.Keys && h'.cells == h.cells && todo <= h.objs.Keys
    && forall q {:trigger MidwayAt(h, h', p, todo, q)} :: q in h.objs ==> MidwayAt(h, h', p, todo, q)
  }

  lemma MidwayStarts(h: Heap, p: ObjId)
    requires p in h.objs
    ensures Midway(h, SetObj(h, p, h.objs[p].(life := Freed)), p, h.objs.Keys)
    ensures Losers(h, {p}) - h.objs.Keys == {}
  {
    forall q | q in h.objs ensures MidwayAt(h, SetObj(h, p, h.objs[p].(life := Freed)), p, h.objs.Keys, q) {}
  }

  lemma MidwayStep(h: Heap, h1: Heap, h2: Heap, p: ObjId, todo: set<ObjId>, q: ObjId)
    requires Midway(h, h1, p, todo) && q in todo && q in h2.objs
    requires h2 == SetObj(h1, q, h2.objs[q]) && FreedFrom(h.objs[q], h2.objs[q], {p}, q)
    ensures Midway(h, h2, p, todo - {q})
  {
    forall o | o in h.objs ensures MidwayAt(h, h2, p, todo - {q}, o) {
      assert MidwayAt(h, h1, p, todo, o);
    }
  }

  lemma LosersStep(h: Heap, p: ObjId, todo: set<ObjId>, q: ObjId)
    requires q in todo && q in h.objs
    ensures Losers(h, {p}) - (todo - {q}) == Losers(h, {p}) - todo + LoserOrNone(h, p, q)
  {
  }

  ghost function LoserOrNone(h: Heap, p: ObjId, q: ObjId): set<ObjId> {
    if q in h.objs && Affected(h.objs[q], {p}) then {q} else {}
  }

  lemma MidwayDone(h: Heap, h': Heap, p: ObjId)
    requires Midway(h, h', p, {})
    ensures FreedAll(h, h', {p})
  {
    forall q ensures FreedAt(h, h', {p}, q) {
      if q in h.objs { assert MidwayAt(h, h', p, {}, q); }
    }
  }

  lemma FreedNothing(h: Heap)
    ensures FreedAll(h, h, {}) && Losers(h, {}) == {}
  {
    forall o ensures FreedAt(h, h, {}, o) {}
  }

  lemma FreedStepAt(h: Heap, h1: Heap, h2: Heap, s: set<ObjId>, p: ObjId, o: ObjId)
    requires FreedAt(h, h1, s, o) && FreedAt(h1, h2, {p}, o) && p !in s && o in h.objs
    ensures FreedAt(h, h2, s + {p}, o)
    ensures o in h1.objs && (Affected(h.objs[o], s + {p}) <==> Affected(h.objs[o], s) || Affected(h1.objs[o], {p}))
  {
    var x, x1 := h.objs[o], h1.objs[o];
    if Affected(x, s + {p}) && !Affected(x, s) {
      var place :| place in x.owners && StoredIn(place, s + {p});
      assert x1.owners[place] == x.owners[place];
      assert StoredIn(place, {p});
    }
    if Affected(x1, {p}) {
      var place :| place in x1.owners && StoredIn(place, {p});
      assert place in x.owners && StoredIn(place, s + {p});
    }
    if Affected(x, s) {
      var place :| place in x.owners && StoredIn(place, s);
      assert StoredIn(place, s + {p});
    }
  }

  lemma FreedStep(h: Heap, h1: Heap, h2: Heap, s: set<ObjId>, p: ObjId)
    requires FreedAll(h, h1, s) && FreedAll(h1, h2, {p}) && p !in s
    ensures FreedAll(h, h2, s + {p}) && Losers(h, s + {p}) == Losers(h, s) + Losers(h1, {p})
  {
    forall o ensures FreedAt(h, h2, s + {p}, o) {
      if o in h.objs { FreedStepAt(h, h1, h2, s, p, o); }
    }
    forall o | o in h.objs
      ensures Affected(h.objs[o], s + {p}) <==> Affected(h.objs[o], s) || (o in h1.objs && Affected(h1.objs[o], {p}))
    {
      assert FreedAt(h, h1, s, o) && FreedAt(h1, h2, {p}, o);
      FreedStepAt(h, h1, h2, s, p, o);
    }
  }

  // ----- the view of the pass bound

  function TrackingOf(h: Heap): Tracking {
    Tracking(set o | o in h.objs && h.objs[o].life.DefaultState?,
             set o | o in h.objs && h.objs[o].life.RequiresReChecking?,
             set o | o in h.objs && IsTracked(h.objs[o]) && !IsCut(h, o))
  }

  /** How the life of an object goes through a pass: update from `h` to `h1`, freeing from `h1` to `h2`. */
  lemma PassAt(h: Heap, h1: Heap, h2: Heap, done: set<ObjId>, freed: set<ObjId>, o: ObjId)
    requires Updated(h, h1, done) && Progress(h1, h2, freed) && (o in h.objs ==> !h.objs[o].life.ReadyToFree?)
    requires o in freed <==> o in done && o in h1.objs && h1.objs[o].life.ReadyToFree?
    requires o in freed ==> o in h2.objs && h2.objs[o].life.Freed?
    ensures o in freed ==> o in h.objs && h.objs[o].life.RequiresReChecking?
    ensures TrackedIn(h2, o) <==> TrackedIn(h, o) && o !in freed
    ensures o in h2.objs ==> !h2.objs[o].life.ReadyToFree?
    ensures IsCut(h, o) ==> IsCut(h2, o)
    ensures o in h2.objs && h2.objs[o].life.RequiresReChecking? ==>
      o in h.objs && (o !in done ==> h.objs[o].life.RequiresReChecking?)
    ensures o in h2.objs && h2.objs[o].life.RequiresReChecking? && o in done && h.objs[o].life.RequiresReChecking? ==>
      !IsCut(h, o) && IsCut(h2, o)
    ensures o in done && o in h1.objs && h1.objs[o].life.RequiresReChecking? ==>
      o in h2.objs && h2.objs[o].life.RequiresReChecking?
  {
    assert ProgressAt(h, h1, done, o) && UpdatedAt(h, h1, done, o) && ProgressAt(h1, h2, freed, o);
  }

  /** A pass of the code is a pass in the sense of the bound. */
  lemma PassIsPass(h: Heap, h1: Heap, h2: Heap, keys: set<ObjId>, freed: set<ObjId>, next: set<ObjId>, dropped: set<ObjId>)
    requires NoneReady(h)
    requires var done := TrackedOf(h, keys);
      && Updated(h, h1, done) && Progress(h1, h2, freed)
      && freed == ReadyOf(h1, done) && next == ReCheckedOf(h1, done) + dropped
    requires forall o :: o in freed ==> o in h2.objs && h2.objs[o].life.Freed?
    requires freed == {} ==> dropped == {}
    ensures NoneReady(h2) && SomePass(TrackingOf(h), keys, TrackingOf(h2), next)
  {
    var done := TrackedOf(h, keys);
    forall o
      ensures o in freed ==> o in h.objs && h.objs[o].life.RequiresReChecking?
      ensures TrackedIn(h2, o) <==> TrackedIn(h, o) && o !in freed
      ensures o in h2.objs ==> !h2.objs[o].life.ReadyToFree?
      ensures IsCut(h, o) ==> IsCut(h2, o)
      ensures o in h2.objs && h2.objs[o].life.RequiresReChecking? ==>
        o in h.objs && (o !in done ==> h.objs[o].life.RequiresReChecking?)
      ensures o in h2.objs && h2.objs[o].life.RequiresReChecking? && o in done && h.objs[o].life.RequiresReChecking? ==>
        !IsCut(h, o) && IsCut(h2, o)
      ensures o in done && o in h1.objs && h1.objs[o].life.RequiresReChecking? ==>
        o in h2.objs && h2.objs[o].life.RequiresReChecking?
    {
      PassAt(h, h1, h2, done, freed, o);
    }
    var v, v' := TrackingOf(h), TrackingOf(h2);
    assert Tracked(v') == Tracked(v) - freed by {
      forall o ensures o in Tracked(v') <==> o in Tracked(v) - freed {
        assert o in Tracked(v') <==> TrackedIn(h2, o);
        assert o in Tracked(v) <==> TrackedIn(h, o);
      }
    }
    assert Pass(v, keys, v', next, freed, dropped);
  }

  /** A pass without interference: updates from `h` to `mid`, frees from `mid` to `h'`. */
  ghost predicate ExactPass(h: Heap, mid: Heap, h': Heap, keys: set<ObjId>, next: set<ObjId>) {
    var done := TrackedOf(h, keys);
    && Visited(h, mid, done, {})
    && FreedAll(mid, h', ReadyOf(mid, done))
    && next == ReCheckedOf(mid, done) + Losers(mid, ReadyOf(mid, done))
  }
}
