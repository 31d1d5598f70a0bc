/**
 The objects and atomic cells that all threads share, and the atomic accesses to them.

 Objects are named by identities that are never reused; the address of a freed object may be
 reused by a later one. Code that compares addresses compares `addr` here.
 */
module Heap {
  import opened Options
  import opened Counters

  type ObjId = nat

  /** Where one handle (one `Sdarc` value, one count) lives. */
  datatype Place =
    | InThread(t: nat)     // a local variable of thread `t`
    | InCell(c: nat)       // an atomic cell
    | InObject(p: ObjId)   // the data of object `p`
    | InWeakRef(p: ObjId)  // `weak_inner_ref` of object `p`

  datatype Life =
    | Unsubmitted          // created, not yet handed to the collector
    | Pending              // in a pending list
    | DefaultState         // this and the next two are tracked
    | RequiresReChecking
    | ReadyToFree
    | Freed

  datatype Obj = Obj(
    addr: nat,
    ctr: seq<Counter>,
    owners: multiset<Place>,
    owed: multiset<Place>,   // counts that `compare_and_set` has still to add, by the handle it borrows
    weak: Option<ObjId>,     // the object that `weak_inner_ref` refers to, once initialized
    backRef: Option<ObjId>,  // of a `WeakSdarcInner`: the object it can upgrade to
    life: Life)

  datatype Heap = Heap(
    shards: nat,
    objs: map<ObjId, Obj>,
    cells: map<nat, ObjId>)  // a null cell is absent

  datatype HeapOp =
    | Nop
    | Create(t: nat, o: ObjId, addr: nat, shard: nat)
    | Acquire(o: ObjId, place: Place, shard: nat)     // one count and one handle more
    | Release(o: ObjId, place: Place, shard: nat)     // one count and one handle fewer, tag set
    | Relocate(o: ObjId, place: Place, to: Place)     // a handle moves, no count changes
    | Exchange(t: nat, c: nat, new_: Option<ObjId>)   // swap of an atomic cell
    | Install(t: nat, c: nat, o: ObjId, from: Place)  // `compare_and_set` succeeds: one handle more, its count owed
    | Compensate(o: ObjId, from: Place, shard: nat)   // it adds the count it owes
    | InitWeak(o: ObjId, w: ObjId, addr: nat, shard: nat)
    | SetLife(o: ObjId, life: Life)
    | Untag(o: ObjId, k: nat)
    | CutBackRef(w: ObjId)

  predicate AddrFree(h: Heap, addr: nat) {
    forall p :: p in h.objs && !h.objs[p].life.Freed? ==> h.objs[p].addr != addr
  }

  predicate Has(h: Heap, o: ObjId, place: Place) { o in h.objs && place in h.objs[o].owners }

  predicate Owned(h: Heap, o: ObjId) { o in h.objs && h.objs[o].owners != multiset{} }

  /** Handles that their holder may drop: those of locals, and those of data, dropped or emptied with it. */
  predicate Droppable(h: Heap, place: Place) {
    match place
    case InThread(_) => true
    case InObject(_) => true
    case InCell(_) => false
    case InWeakRef(p) => p in h.objs && h.objs[p].life.Freed?
  }

  predicate Movable(place: Place) { place.InThread? || place.InObject? }

  /** A handle that a pending `compare_and_set` borrows stays where it is. */
  predicate Unpinned(h: Heap, o: ObjId, place: Place) {
    o in h.objs && (place in h.objs[o].owed ==> h.objs[o].owners[place] > 1)
  }

  predicate Ok(h: Heap, op: HeapOp) {
    match op
    case Nop => true
    case Create(t, o, addr, shard) => o !in h.objs && AddrFree(h, addr) && shard < h.shards
    case Acquire(o, place, shard) => o in h.objs && shard < |h.objs[o].ctr| && place.InThread?
    case Release(o, place, shard) =>
      Has(h, o, place) && Droppable(h, place) && Unpinned(h, o, place) && shard < |h.objs[o].ctr|
    case Relocate(o, place, to) => Has(h, o, place) && Movable(place) && Unpinned(h, o, place) && Movable(to)
    case Exchange(t, c, new_) =>
      new_.Some? ==> Has(h, new_.value, InThread(t)) && Unpinned(h, new_.value, InThread(t))
    case Install(t, c, o, from) => Has(h, o, from) && Movable(from)
    case Compensate(o, from, shard) => o in h.objs && from in h.objs[o].owed && shard < |h.objs[o].ctr|
    case InitWeak(o, w, addr, shard) =>
      Owned(h, o) && h.objs[o].weak.None? && w !in h.objs && AddrFree(h, addr) && shard < h.shards
    case SetLife(o, life) => o in h.objs && !h.objs[o].life.Freed?
    case Untag(o, k) => o in h.objs && k < |h.objs[o].ctr|
    case CutBackRef(w) => w in h.objs
  }

  function SetObj(h: Heap, o: ObjId, x: Obj): Heap { h.(objs := h.objs[o := x]) }

  function MoveHandle(h: Heap, o: ObjId, place: Place, to: Place): Heap
    requires o in h.objs
  {
    SetObj(h, o, h.objs[o].(owners := h.objs[o].owners - multiset{place} + multiset{to}))
  }

  function TakeOut(h: Heap, t: nat, c: nat): Heap {
    if c in h.cells && h.cells[c] in h.objs then MoveHandle(h, h.cells[c], InCell(c), InThread(t)) else h
  }

  function PutIn(h: Heap, t: nat, c: nat, new_: Option<ObjId>): Heap {
    if new_.Some? && new_.value in h.objs then
      MoveHandle(h, new_.value, InThread(t), InCell(c)).(cells := h.cells[c := new_.value])
    else h.(cells := h.cells - {c})
  }

  function PutCopy(h: Heap, c: nat, o: ObjId, from: Place): Heap
    requires o in h.objs
  {
    var x := h.objs[o];
    SetObj(h, o, x.(owners := x.owners + multiset{InCell(c)}, owed := x.owed + multiset{from})).(cells := h.cells[c := o])
  }

  function Apply(h: Heap, op: HeapOp): Heap
    requires Ok(h, op)
  {
    match op
    case Nop => h
    case Create(t, o, addr, shard) =>
      SetObj(h, o, Obj(addr, FreshCounters(h.shards, shard), multiset{InThread(t)}, multiset{}, None, None, Unsubmitted))
    case Acquire(o, place, shard) =>
      var x := h.objs[o];
      SetObj(h, o, x.(ctr := x.ctr[shard := Increment(x.ctr[shard])], owners := x.owners + multiset{place}))
    case Release(o, place, shard) =>
      var x := h.objs[o];
      SetObj(h, o, x.(ctr := x.ctr[shard := DecrementAndTag(x.ctr[shard])], owners := x.owners - multiset{place}))
    case Relocate(o, place, to) => MoveHandle(h, o, place, to)
    case Exchange(t, c, new_) => PutIn(TakeOut(h, t, c), t, c, new_)
    case Install(t, c, o, from) => PutCopy(TakeOut(h, t, c), c, o, from)
    case Compensate(o, from, shard) =>
      var x := h.objs[o];
      SetObj(h, o, x.(ctr := x.ctr[shard := Increment(x.ctr[shard])], owed := x.owed - multiset{from}))
    case InitWeak(o, w, addr, shard) =>
      SetObj(SetObj(h, o, h.objs[o].(weak := Some(w))), w,
             Obj(addr, FreshCounters(h.shards, shard), multiset{InWeakRef(o)}, multiset{}, None, Some(o), Unsubmitted))
    case SetLife(o, life) => SetObj(h, o, h.objs[o].(life := life))
    case Untag(o, k) => SetObj(h, o, h.objs[o].(ctr := h.objs[o].ctr[k := ClearTag(h.objs[o].ctr[k])]))
    case CutBackRef(w) => SetObj(h, w, h.objs[w].(backRef := None))
  }

  // ----- what holds of every reachable heap

  /** The shard counts of an object add up to its handles, less what is still owed. */
  predicate CountOk(h: Heap, o: ObjId)
    requires o in h.objs
  {
    |h.objs[o].ctr| == h.shards && Sum(h.objs[o].ctr) == |h.objs[o].owners| - |h.objs[o].owed|
  }

  /** Whoever owes a count borrows a handle that is there. */
  predicate PinOk(h: Heap, o: ObjId, place: Place)
    requires o in h.objs
  {
    place in h.objs[o].owed ==> Movable(place) && place in h.objs[o].owners
  }

  /** A cell holds exactly one handle to the object it points to. */
  predicate CellOk(h: Heap, o: ObjId, c: nat)
    requires o in h.objs
  {
    h.objs[o].owners[InCell(c)] == if c in h.cells && h.cells[c] == o then 1 else 0
  }

  /** `w` refers back only to the object whose `weak_inner_ref` is `w`. */
  predicate BackRefOk(objs: map<ObjId, Obj>, w: ObjId)
    requires w in objs
  {
    objs[w].backRef.Some? ==>
      objs[w].backRef.value in objs && objs[objs[w].backRef.value].weak == Some(w)
  }

  /** `weak_inner_ref` of an object that is not freed holds a handle, so its target outlives the object. */
  predicate WeakRefOk(objs: map<ObjId, Obj>, o: ObjId)
    requires o in objs
  {
    objs[o].weak.Some? ==>
      && objs[o].weak.value in objs
      && (objs[objs[o].weak.value].backRef.Some? ==> objs[objs[o].weak.value].backRef.value == o)
      && (!objs[o].life.Freed? ==> InWeakRef(o) in objs[objs[o].weak.value].owners)
  }

  predicate AddrOk(h: Heap, o: ObjId, p: ObjId)
    requires o in h.objs && p in h.objs
  {
    o != p && !h.objs[o].life.Freed? && !h.objs[p].life.Freed? ==> h.objs[o].addr != h.objs[p].addr
  }

  ghost predicate Conserved(h: Heap) { forall o {:trigger CountOk(h, o)} :: o in h.objs ==> CountOk(h, o) }

  ghost predicate Pinned(h: Heap) {
    forall o, place {:trigger PinOk(h, o, place)} :: o in h.objs ==> PinOk(h, o, place)
  }

  ghost predicate CellsAgree(h: Heap) {
    && (forall c :: c in h.cells ==> h.cells[c] in h.objs)
    && (forall o, c {:trigger CellOk(h, o, c)} :: o in h.objs ==> CellOk(h, o, c))
  }

  ghost predicate WeakAgree(h: Heap) {
    && (forall w {:trigger BackRefOk(h.objs, w)} :: w in h.objs ==> BackRefOk(h.objs, w))
    && (forall o {:trigger WeakRefOk(h.objs, o)} :: o in h.objs ==> WeakRefOk(h.objs, o))
  }

  ghost predicate AddrsDistinct(h: Heap) {
    forall o, p {:trigger AddrOk(h, o, p)} :: o in h.objs && p in h.objs ==> AddrOk(h, o, p)
  }

  ghost predicate HeapInv(h: Heap) {
    h.shards > 0 && Conserved(h) && Pinned(h) && CellsAgree(h) && WeakAgree(h) && AddrsDistinct(h)
  }

  /** A weak reference could still upgrade to `o`. */
  predicate HasBackRef(objs: map<ObjId, Obj>, o: ObjId) {
    o in objs && objs[o].weak.Some? && objs[o].weak.value in objs && objs[objs[o].weak.value].backRef.Some?
  }

  // ----- every access keeps it, object by object

  /** Replacing one counter, with the handles and debts that go with it. */
  lemma CountUpdates(h: Heap, p: ObjId, shard: nat, c: Counter, owners: multiset<Place>, owed: multiset<Place>)
    requires p in h.objs && CountOk(h, p) && shard < |h.objs[p].ctr|
    requires |owners| - |owed| == |h.objs[p].owners| - |h.objs[p].owed| + c.n - h.objs[p].ctr[shard].n
    ensures var ctr := h.objs[p].ctr[shard := c]; |ctr| == h.shards && Sum(ctr) == |owners| - |owed|
  {
    SumToUpdate(h.objs[p].ctr, shard, c, |h.objs[p].ctr|);
  }

  /** The accesses that change a counter. */
  predicate Counts(op: HeapOp) { op.Acquire? || op.Release? || op.Compensate? || op.Untag? }

  lemma CountingKeepsCount(h: Heap, op: HeapOp, o: ObjId)
    requires Ok(h, op) && Counts(op) && op.o == o && CountOk(h, o)
    ensures o in Apply(h, op).objs && CountOk(Apply(h, op), o)
  {
    var x := h.objs[o];
    match op
    case Acquire(_, place, shard) => CountUpdates(h, o, shard, Increment(x.ctr[shard]), x.owners + multiset{place}, x.owed);
    case Release(_, place, shard) => CountUpdates(h, o, shard, DecrementAndTag(x.ctr[shard]), x.owners - multiset{place}, x.owed);
    case Compensate(_, from, shard) => CountUpdates(h, o, shard, Increment(x.ctr[shard]), x.owners, x.owed - multiset{from});
    case Untag(_, k) => CountUpdates(h, o, k, ClearTag(x.ctr[k]), x.owners, x.owed);
  }

  lemma CreationKeepsCount(h: Heap, op: HeapOp, o: ObjId)
    requires Ok(h, op) && Creates(op) && o in Apply(h, op).objs && (o in h.objs ==> CountOk(h, o))
    ensures CountOk(Apply(h, op), o)
  {
  }

  lemma KeepsCount(h: Heap, op: HeapOp, o: ObjId)
    requires Ok(h, op) && !SwapsCell(op) && o in Apply(h, op).objs
    requires o in h.objs ==> CountOk(h, o)
    ensures CountOk(Apply(h, op), o)
  {
    if Creates(op) {
      CreationKeepsCount(h, op, o);
    } else if op.Relocate? {
      MoveKeepsCount(h, op.o, op.place, op.to, o);
    } else if Counts(op) && op.o == o {
      CountingKeepsCount(h, op, o);
    }
  }

  lemma MoveKeepsCount(h: Heap, q: ObjId, place: Place, to: Place, o: ObjId)
    requires Has(h, q, place) && o in h.objs && CountOk(h, o)
    ensures CountOk(MoveHandle(h, q, place, to), o)
  {
  }

  lemma ExchangeKeepsCount(h: Heap, t: nat, c: nat, new_: Option<ObjId>, o: ObjId)
    requires new_.Some? ==> Has(h, new_.value, InThread(t))
    requires o in h.objs && CountOk(h, o)
    requires c in h.cells ==> Has(h, h.cells[c], InCell(c))
    ensures CountOk(PutIn(TakeOut(h, t, c), t, c, new_), o)
  {
    if c in h.cells {
      MoveKeepsCount(h, h.cells[c], InCell(c), InThread(t), o);
    }
    var h1 := TakeOut(h, t, c);
    if new_.Some? {
      MoveKeepsCount(h1, new_.value, InThread(t), InCell(c), o);
    }
  }

  lemma InstallKeepsCount(h: Heap, t: nat, c: nat, q: ObjId, from: Place, o: ObjId)
    requires q in h.objs && o in h.objs && CountOk(h, o)
    requires c in h.cells ==> Has(h, h.cells[c], InCell(c))
    ensures CountOk(PutCopy(TakeOut(h, t, c), c, q, from), o)
  {
    if c in h.cells {
      MoveKeepsCount(h, h.cells[c], InCell(c), InThread(t), o);
    }
  }

  lemma MoveKeepsPin(h: Heap, q: ObjId, place: Place, to: Place, o: ObjId, p: Place)
    requires q in h.objs && o in h.objs && PinOk(h, o, p) && (Unpinned(h, q, place) || !Movable(place))
    ensures PinOk(MoveHandle(h, q, place, to), o, p)
  {
    if p in h.objs[o].owed && o == q {
      var m := h.objs[o].owners;
      assert (m - multiset{place} + multiset{to})[p] >= (m - multiset{place})[p];
    }
  }

  lemma ExchangeKeepsPin(h: Heap, t: nat, c: nat, new_: Option<ObjId>, o: ObjId, p: Place)
    requires new_.Some? ==> Has(h, new_.value, InThread(t)) && Unpinned(h, new_.value, InThread(t))
    requires o in h.objs && PinOk(h, o, p)
    ensures PinOk(PutIn(TakeOut(h, t, c), t, c, new_), o, p)
  {
    if c in h.cells && h.cells[c] in h.objs { MoveKeepsPin(h, h.cells[c], InCell(c), InThread(t), o, p); }
    var h1 := TakeOut(h, t, c);
    if new_.Some? { MoveKeepsPin(h1, new_.value, InThread(t), InCell(c), o, p); }
  }

  lemma InstallKeepsPin(h: Heap, t: nat, c: nat, q: ObjId, from: Place, o: ObjId, p: Place)
    requires Has(h, q, from) && Movable(from) && o in h.objs && PinOk(h, o, p)
    ensures PinOk(PutCopy(TakeOut(h, t, c), c, q, from), o, p)
  {
    if c in h.cells && h.cells[c] in h.objs { MoveKeepsPin(h, h.cells[c], InCell(c), InThread(t), o, p); }
    InstallKeepsFrom(h, t, c, q, from);
  }

  lemma HandleKeepsPin(h: Heap, op: HeapOp, o: ObjId, p: Place)
    requires Ok(h, op) && (op.Acquire? || op.Release?) && o in h.objs && PinOk(h, o, p)
    ensures o in Apply(h, op).objs && PinOk(Apply(h, op), o, p)
  {
  }

  lemma CreationKeepsPin(h: Heap, op: HeapOp, o: ObjId, p: Place)
    requires Ok(h, op) && Creates(op) && o in Apply(h, op).objs && (o in h.objs ==> PinOk(h, o, p))
    ensures PinOk(Apply(h, op), o, p)
  {
  }

  lemma SwapKeepsPin(h: Heap, op: HeapOp, o: ObjId, p: Place)
    requires Ok(h, op) && SwapsCell(op) && o in h.objs && PinOk(h, o, p)
    ensures o in Apply(h, op).objs && PinOk(Apply(h, op), o, p)
  {
    match op
    case Exchange(t, c, new_) => ExchangeKeepsPin(h, t, c, new_, o, p);
    case Install(t, c, q, from) => InstallKeepsPin(h, t, c, q, from, o, p);
  }

  lemma KeepsPin(h: Heap, op: HeapOp, o: ObjId, p: Place)
    requires Ok(h, op) && o in Apply(h, op).objs && (o in h.objs ==> PinOk(h, o, p))
    ensures PinOk(Apply(h, op), o, p)
  {
    if Creates(op) {
      CreationKeepsPin(h, op, o, p);
    } else if op.Relocate? {
      MoveKeepsPin(h, op.o, op.place, op.to, o, p);
    } else if MovesHandle(op) {
      HandleKeepsPin(h, op, o, p);
    } else if SwapsCell(op) {
      SwapKeepsPin(h, op, o, p);
    } else {
      OwnersStay(h, op, o);
    }
  }

  /** Nothing is owed for an object that nobody owns. */
  lemma UnownedOwesNothing(h: Heap, o: ObjId)
    requires Pinned(h) && o in h.objs && h.objs[o].owners == multiset{}
    ensures h.objs[o].owed == multiset{}
  {
    forall place ensures place !in h.objs[o].owed {
      assert PinOk(h, o, place);
    }
  }

  lemma InstallKeepsFrom(h: Heap, t: nat, c: nat, q: ObjId, from: Place)
    requires Has(h, q, from) && Movable(from)
    ensures from in TakeOut(h, t, c).objs[q].owners
  {
  }

  predicate Creates(op: HeapOp) { op.Create? || op.InitWeak? }

  predicate MovesHandle(op: HeapOp) { op.Acquire? || op.Release? || op.Relocate? }

  predicate SwapsCell(op: HeapOp) { op.Exchange? || op.Install? }

  /** Other accesses leave all handles where they are. */
  lemma OwnersStay(h: Heap, op: HeapOp, o: ObjId)
    requires Ok(h, op) && !Creates(op) && !MovesHandle(op) && !SwapsCell(op) && o in Apply(h, op).objs
    ensures o in h.objs && Apply(h, op).objs[o].owners == h.objs[o].owners && Apply(h, op).cells == h.cells
    ensures Apply(h, op).objs[o].owed <= h.objs[o].owed
  {
  }

  lemma CreationKeepsCell(h: Heap, op: HeapOp, o: ObjId, c: nat)
    requires Ok(h, op) && Creates(op) && o in Apply(h, op).objs
    requires o in h.objs ==> CellOk(h, o, c)
    requires o !in h.objs ==> c in h.cells ==> h.cells[c] != o
    ensures CellOk(Apply(h, op), o, c)
  {
  }

  lemma HandleKeepsCell(h: Heap, op: HeapOp, o: ObjId, c: nat)
    requires Ok(h, op) && MovesHandle(op) && o in h.objs && CellOk(h, o, c)
    ensures o in Apply(h, op).objs && CellOk(Apply(h, op), o, c)
  {
  }

  lemma KeepsCell(h: Heap, op: HeapOp, o: ObjId, c: nat)
    requires Ok(h, op) && !SwapsCell(op) && o in Apply(h, op).objs
    requires o in h.objs ==> CellOk(h, o, c)
    requires o !in h.objs ==> c in h.cells ==> h.cells[c] != o
    ensures CellOk(Apply(h, op), o, c)
  {
    if Creates(op) {
      CreationKeepsCell(h, op, o, c);
    } else if MovesHandle(op) {
      HandleKeepsCell(h, op, o, c);
    } else {
      OwnersStay(h, op, o);
    }
  }

  lemma TakeOutCell(h: Heap, t: nat, c: nat, o: ObjId, c': nat)
    requires o in h.objs && CellOk(h, o, c')
    ensures TakeOut(h, t, c).objs[o].owners[InCell(c')] == if c' == c then 0 else h.objs[o].owners[InCell(c')]
  {
  }

  lemma PutInCell(h: Heap, t: nat, c: nat, new_: Option<ObjId>, o: ObjId, c': nat)
    requires new_.Some? ==> new_.value in h.objs
    requires o in h.objs && if c' == c then h.objs[o].owners[InCell(c)] == 0 else CellOk(h, o, c')
    ensures CellOk(PutIn(h, t, c, new_), o, c')
  {
  }

  lemma ExchangeKeepsCell(h: Heap, t: nat, c: nat, new_: Option<ObjId>, o: ObjId, c': nat)
    requires new_.Some? ==> Has(h, new_.value, InThread(t))
    requires o in h.objs && CellOk(h, o, c')
    ensures CellOk(PutIn(TakeOut(h, t, c), t, c, new_), o, c')
  {
    TakeOutCell(h, t, c, o, c');
    PutInCell(TakeOut(h, t, c), t, c, new_, o, c');
  }

  lemma InstallKeepsCell(h: Heap, t: nat, c: nat, q: ObjId, from: Place, o: ObjId, c': nat)
    requires q in h.objs && o in h.objs && CellOk(h, o, c')
    ensures CellOk(PutCopy(TakeOut(h, t, c), c, q, from), o, c')
  {
    TakeOutCell(h, t, c, o, c');
  }

  /** What one access may do to an object, apart from its counts. */
  predicate Evolves(op: HeapOp, x: Obj, x': Obj, o: ObjId) {
    && x'.addr == x.addr
    && (x.life.Freed? ==> x'.life.Freed?)
    && (x'.weak == x.weak || (x.weak.None? && op.InitWeak? && op.o == o && x'.weak == Some(op.w)))
    && (x'.backRef == x.backRef || (x'.backRef.None? && op.CutBackRef? && op.w == o))
    && (x'.life == x.life || (op.SetLife? && op.o == o && x'.life == op.life))
    && |x'.ctr| == |x.ctr|
  }

  /** A cell swap changes nothing but who holds the handles. */
  lemma ExchangeEvolves(h: Heap, t: nat, c: nat, new_: Option<ObjId>, o: ObjId)
    requires o in h.objs
    ensures var objs := PutIn(TakeOut(h, t, c), t, c, new_).objs;
      o in objs && objs[o] == h.objs[o].(owners := objs[o].owners)
  {
    var h1 := TakeOut(h, t, c);
    assert o in h1.objs && h1.objs[o] == h.objs[o].(owners := h1.objs[o].owners);
  }

  lemma InstallEvolves(h: Heap, t: nat, c: nat, q: ObjId, from: Place, o: ObjId)
    requires q in h.objs && o in h.objs
    ensures var objs := PutCopy(TakeOut(h, t, c), c, q, from).objs;
      o in objs && objs[o] == h.objs[o].(owners := objs[o].owners, owed := objs[o].owed)
  {
    var h1 := TakeOut(h, t, c);
    assert o in h1.objs && h1.objs[o] == h.objs[o].(owners := h1.objs[o].owners);
  }

  lemma ObjectEvolves(h: Heap, op: HeapOp, o: ObjId)
    requires Ok(h, op) && o in h.objs
    ensures o in Apply(h, op).objs && Evolves(op, h.objs[o], Apply(h, op).objs[o], o)
  {
    if op.Exchange? {
      ExchangeEvolves(h, op.t, op.c, op.new_, o);
    }
    if op.Install? {
      InstallEvolves(h, op.t, op.c, op.o, op.from, o);
    }
  }

  lemma OtherHandleStays(m: multiset<Place>, gone: Place, to: Place, x: Place)
    requires x in m && gone != x
    ensures x in m - multiset{gone} && x in m - multiset{gone} + multiset{to}
  {
  }

  lemma MoveKeepsHandle(h: Heap, q: ObjId, place: Place, to: Place, w: ObjId, x: Place)
    requires q in h.objs && Has(h, w, x) && place != x
    ensures Has(MoveHandle(h, q, place, to), w, x)
  {
    OtherHandleStays(h.objs[w].owners, place, to, x);
  }

  lemma ExchangeKeepsWeakHandle(h: Heap, t: nat, c: nat, new_: Option<ObjId>, w: ObjId, o: ObjId)
    requires Has(h, w, InWeakRef(o))
    ensures Has(PutIn(TakeOut(h, t, c), t, c, new_), w, InWeakRef(o))
  {
    if c in h.cells && h.cells[c] in h.objs {
      MoveKeepsHandle(h, h.cells[c], InCell(c), InThread(t), w, InWeakRef(o));
    }
    var h1 := TakeOut(h, t, c);
    if new_.Some? && new_.value in h1.objs {
      MoveKeepsHandle(h1, new_.value, InThread(t), InCell(c), w, InWeakRef(o));
    }
  }

  lemma InstallKeepsWeakHandle(h: Heap, t: nat, c: nat, q: ObjId, from: Place, w: ObjId, o: ObjId)
    requires q in h.objs && Has(h, w, InWeakRef(o))
    ensures Has(PutCopy(TakeOut(h, t, c), c, q, from), w, InWeakRef(o))
  {
    if c in h.cells && h.cells[c] in h.objs {
      MoveKeepsHandle(h, h.cells[c], InCell(c), InThread(t), w, InWeakRef(o));
    }
  }

  lemma WeakHandleStays(h: Heap, op: HeapOp, w: ObjId, o: ObjId)
    requires Ok(h, op) && Has(h, w, InWeakRef(o)) && o in h.objs && !h.objs[o].life.Freed?
    ensures Has(Apply(h, op), w, InWeakRef(o))
  {
    match op
    case Exchange(t, c, new_) => ExchangeKeepsWeakHandle(h, t, c, new_, w, o);
    case Install(t, c, q, from) => InstallKeepsWeakHandle(h, t, c, q, from, w, o);
    case Release(p, place, shard) => OtherHandleStays(h.objs[w].owners, place, place, InWeakRef(o));
    case Relocate(p, place, to) => OtherHandleStays(h.objs[w].owners, place, to, InWeakRef(o));
    case _ =>
  }

  lemma ObjectAppears(h: Heap, op: HeapOp, o: ObjId)
    requires Ok(h, op) && o !in h.objs && o in Apply(h, op).objs
    ensures var x := Apply(h, op).objs[o];
      && AddrFree(h, x.addr) && x.weak.None? && x.life.Unsubmitted?
      && ((op.Create? && op.o == o && x.backRef.None?)
          || (op.InitWeak? && op.w == o && o != op.o && x.backRef == Some(op.o) && InWeakRef(op.o) in x.owners))
  {
  }

  lemma KeepsBackRef(h: Heap, op: HeapOp, w: ObjId)
    requires Ok(h, op) && w in Apply(h, op).objs
    requires w in h.objs ==> BackRefOk(h.objs, w)
    ensures BackRefOk(Apply(h, op).objs, w)
  {
    if w in h.objs {
      ObjectEvolves(h, op, w);
      if h.objs[w].backRef.Some? {
        ObjectEvolves(h, op, h.objs[w].backRef.value);
      }
    } else {
      ObjectAppears(h, op, w);
    }
  }

  lemma KeepsWeakRef(h: Heap, op: HeapOp, o: ObjId)
    requires Ok(h, op) && o in Apply(h, op).objs
    requires o in h.objs ==> WeakRefOk(h.objs, o)
    ensures WeakRefOk(Apply(h, op).objs, o)
  {
    if o in h.objs {
      ObjectEvolves(h, op, o);
      if h.objs[o].weak.Some? {
        ObjectEvolves(h, op, h.objs[o].weak.value);
        if !h.objs[o].life.Freed? {
          WeakHandleStays(h, op, h.objs[o].weak.value, o);
        }
      }
    } else {
      ObjectAppears(h, op, o);
    }
  }

  lemma KeepsAddr(h: Heap, op: HeapOp, o: ObjId, p: ObjId)
    requires Ok(h, op) && o in Apply(h, op).objs && p in Apply(h, op).objs
    requires o in h.objs && p in h.objs ==> AddrOk(h, o, p)
    ensures AddrOk(Apply(h, op), o, p)
  {
    if o in h.objs { ObjectEvolves(h, op, o); } else { ObjectAppears(h, op, o); }
    if p in h.objs { ObjectEvolves(h, op, p); } else { ObjectAppears(h, op, p); }
  }

  lemma SwapKeepsCount(h: Heap, op: HeapOp, o: ObjId)
    requires Ok(h, op) && SwapsCell(op) && CellsAgree(h) && o in h.objs && CountOk(h, o)
    ensures o in Apply(h, op).objs && CountOk(Apply(h, op), o)
  {
    assert op.c in h.cells ==> CellOk(h, h.cells[op.c], op.c);
    match op
    case Exchange(t, c, new_) => ExchangeKeepsCount(h, t, c, new_, o);
    case Install(t, c, q, from) => InstallKeepsCount(h, t, c, q, from, o);
  }

  lemma SwapKeepsCell(h: Heap, op: HeapOp, o: ObjId, c: nat)
    requires Ok(h, op) && SwapsCell(op) && o in h.objs && CellOk(h, o, c)
    ensures o in Apply(h, op).objs && CellOk(Apply(h, op), o, c)
  {
    match op
    case Exchange(t, cell, new_) => ExchangeKeepsCell(h, t, cell, new_, o, c);
    case Install(t, cell, q, from) => InstallKeepsCell(h, t, cell, q, from, o, c);
  }

  lemma KeepsHeapInv(h: Heap, op: HeapOp)
    requires HeapInv(h) && Ok(h, op)
    ensures HeapInv(Apply(h, op)) && Apply(h, op).shards == h.shards
  {
    var h' := Apply(h, op);
    forall o | o in h'.objs ensures CountOk(h', o) {
      if SwapsCell(op) {
        SwapKeepsCount(h, op, o);
      } else {
        KeepsCount(h, op, o);
      }
    }
    forall o, c | o in h'.objs ensures CellOk(h', o, c) {
      if SwapsCell(op) {
        SwapKeepsCell(h, op, o, c);
      } else {
        KeepsCell(h, op, o, c);
      }
    }
    forall o, place | o in h'.objs ensures PinOk(h', o, place) { KeepsPin(h, op, o, place); }
    forall w | w in h'.objs ensures BackRefOk(h'.objs, w) { KeepsBackRef(h, op, w); }
    forall o | o in h'.objs ensures WeakRefOk(h'.objs, o) { KeepsWeakRef(h, op, o); }
    forall o, p | o in h'.objs && p in h'.objs ensures AddrOk(h', o, p) { KeepsAddr(h, op, o, p); }
  }

  // ----- heaps without a pending `compare_and_set`

  ghost predicate NothingOwed(objs: map<ObjId, Obj>) { forall o :: o in objs ==> objs[o].owed == multiset{} }

  ghost predicate Calm(h: Heap) { HeapInv(h) && NothingOwed(h.objs) }

  lemma OwedOnlyByInstall(h: Heap, op: HeapOp)
    requires Ok(h, op) && !op.Install? && NothingOwed(h.objs)
    ensures NothingOwed(Apply(h, op).objs)
  {
    forall o | o in Apply(h, op).objs ensures Apply(h, op).objs[o].owed == multiset{} {
      if op.Exchange? && o in h.objs {
        ExchangeEvolves(h, op.t, op.c, op.new_, o);
      }
    }
  }

  lemma KeepsCalm(h: Heap, op: HeapOp)
    requires Calm(h) && Ok(h, op) && !op.Install?
    ensures Calm(Apply(h, op)) && Apply(h, op).shards == h.shards
  {
    KeepsHeapInv(h, op);
    OwedOnlyByInstall(h, op);
  }
}
