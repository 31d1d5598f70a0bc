/** What each access does to the heap, place by place, and that it does nothing else. */
module HeapEffects {
  import opened Options
  import opened Counters
  import opened Heap

  function Once(b: bool): int { if b then 1 else 0 }

  /** Nothing but object `o` has changed. */
  predicate OnlyObj(h: Heap, h': Heap, o: ObjId) {
    && h'.shards == h.shards && h'.cells == h.cells
    && o in h.objs && h'.objs.Keys == h.objs.Keys
    && forall p :: p in h.objs && p != o ==> h'.objs[p] == h.objs[p]
  }

  /** Nothing but who holds the handles, who owes counts, and the counters. */
  predicate SameButHandles(x: Obj, y: Obj) {
    y.addr == x.addr && y.weak == x.weak && y.backRef == x.backRef && y.life == x.life && |y.ctr| == |x.ctr|
  }

  predicate SameTags(x: Obj, y: Obj) {
    |y.ctr| == |x.ctr| && forall j :: 0 <= j < |x.ctr| ==> y.ctr[j].tag == x.ctr[j].tag
  }

  /** One handle more at `place`, counted. */
  ghost predicate Acquired(h: Heap, h': Heap, o: ObjId, place: Place) {
    && OnlyObj(h, h', o)
    && var x, y := h.objs[o], h'.objs[o];
    && SameButHandles(x, y) && y.owed == x.owed && SameTags(x, y) && Sum(y.ctr) == Sum(x.ctr) + 1
    && forall q :: y.owners[q] == x.owners[q] + Once(q == place)
  }

  /** One handle fewer at `place`, uncounted, and a tag to show for it. */
  ghost predicate Released(h: Heap, h': Heap, o: ObjId, place: Place, shard: nat) {
    && OnlyObj(h, h', o)
    && var x, y := h.objs[o], h'.objs[o];
    && SameButHandles(x, y) && y.owed == x.owed && Sum(y.ctr) == Sum(x.ctr) - 1
    && (forall q :: y.owners[q] == x.owners[q] - Once(q == place))
    && (forall j :: 0 <= j < |x.ctr| ==> y.ctr[j].tag == (x.ctr[j].tag || j == shard))
  }

  /** A handle has moved, and no count has changed. */
  ghost predicate Relocated(h: Heap, h': Heap, o: ObjId, place: Place, to: Place) {
    && OnlyObj(h, h', o)
    && var x, y := h.objs[o], h'.objs[o];
    && SameButHandles(x, y) && y.owed == x.owed && y.ctr == x.ctr
    && forall q :: y.owners[q] == x.owners[q] - Once(q == place) + Once(q == to)
  }

  /** What a cell contains. */
  function InCellNow(h: Heap, c: nat): Option<ObjId> { if c in h.cells then Some(h.cells[c]) else None }

  ghost predicate OnlyCell(h: Heap, h': Heap, c: nat) {
    h'.shards == h.shards && h'.objs.Keys == h.objs.Keys && forall d :: d != c ==> InCellNow(h', d) == InCellNow(h, d)
  }

  /** What a swap does to one object: the old one goes to the thread, the new one to the cell. */
  ghost predicate ExchangedAt(h: Heap, h': Heap, t: nat, c: nat, new_: Option<ObjId>, o: ObjId)
    requires o in h.objs && o in h'.objs
  {
    var x, y := h.objs[o], h'.objs[o];
    && SameButHandles(x, y) && y.owed == x.owed && y.ctr == x.ctr
    && forall q :: y.owners[q] == x.owners[q]
         + (if InCellNow(h, c) == Some(o) then Once(q == InThread(t)) - Once(q == InCell(c)) else 0)
         + (if new_ == Some(o) then Once(q == InCell(c)) - Once(q == InThread(t)) else 0)
  }

  ghost predicate Exchanged(h: Heap, h': Heap, t: nat, c: nat, new_: Option<ObjId>) {
    && OnlyCell(h, h', c) && InCellNow(h', c) == new_
    && forall o {:trigger ExchangedAt(h, h', t, c, new_, o)} :: o in h.objs ==> ExchangedAt(h, h', t, c, new_, o)
  }

  /** As a swap, but the new handle is an additional one, and its count is owed. */
  ghost predicate InstalledAt(h: Heap, h': Heap, t: nat, c: nat, new_: ObjId, from: Place, o: ObjId)
    requires o in h.objs && o in h'.objs
  {
    var x, y := h.objs[o], h'.objs[o];
    && SameButHandles(x, y) && y.ctr == x.ctr
    && (forall q :: y.owed[q] == x.owed[q] + Once(o == new_ && q == from))
    && forall q :: y.owners[q] == x.owners[q]
         + (if InCellNow(h, c) == Some(o) then Once(q == InThread(t)) - Once(q == InCell(c)) else 0)
         + Once(o == new_ && q == InCell(c))
  }

  ghost predicate Installed(h: Heap, h': Heap, t: nat, c: nat, new_: ObjId, from: Place) {
    && OnlyCell(h, h', c) && InCellNow(h', c) == Some(new_)
    && forall o {:trigger InstalledAt(h, h', t, c, new_, from, o)} :: o in h.objs ==> InstalledAt(h, h', t, c, new_, from, o)
  }

  /** The count is added and no longer owed. */
  ghost predicate Compensated(h: Heap, h': Heap, o: ObjId, from: Place) {
    && OnlyObj(h, h', o)
    && var x, y := h.objs[o], h'.objs[o];
    && SameButHandles(x, y) && y.owners == x.owners && SameTags(x, y) && Sum(y.ctr) == Sum(x.ctr) + 1
    && forall q :: y.owed[q] == x.owed[q] - Once(q == from)
  }

  /** A new object with one handle, counted, and nothing else. */
  ghost predicate IsNewborn(x: Obj, shards: nat, addr: nat, place: Place, backRef: Option<ObjId>) {
    && x.addr == addr && |x.ctr| == shards && Sum(x.ctr) == 1 && (forall j :: 0 <= j < shards ==> !x.ctr[j].tag)
    && x.owners == multiset{place} && x.owed == multiset{} && x.weak.None? && x.backRef == backRef && x.life.Unsubmitted?
  }

  ghost predicate Created(h: Heap, h': Heap, t: nat, o: ObjId, addr: nat) {
    && h'.shards == h.shards && h'.cells == h.cells && o !in h.objs && h'.objs.Keys == h.objs.Keys + {o}
    && (forall p :: p in h.objs ==> h'.objs[p] == h.objs[p])
    && IsNewborn(h'.objs[o], h.shards, addr, InThread(t), None)
  }

  /** `o` has got a weak inner object that refers back to it. */
  ghost predicate Downgraded(h: Heap, h': Heap, o: ObjId, w: ObjId, addr: nat) {
    && h'.shards == h.shards && h'.cells == h.cells && o in h.objs && w !in h.objs && h'.objs.Keys == h.objs.Keys + {w}
    && (forall p :: p in h.objs && p != o ==> h'.objs[p] == h.objs[p])
    && h.objs[o].weak.None? && h'.objs[o] == h.objs[o].(weak := Some(w))
    && IsNewborn(h'.objs[w], h.shards, addr, InWeakRef(o), Some(o))
  }

  // ----- the accesses have these effects

  lemma AcquireEffect(h: Heap, o: ObjId, place: Place, shard: nat)
    requires Ok(h, Acquire(o, place, shard))
    ensures Acquired(h, Apply(h, Acquire(o, place, shard)), o, place)
  {
    SumToUpdate(h.objs[o].ctr, shard, Increment(h.objs[o].ctr[shard]), |h.objs[o].ctr|);
  }

  lemma ReleaseEffect(h: Heap, o: ObjId, place: Place, shard: nat)
    requires Ok(h, Release(o, place, shard))
    ensures Released(h, Apply(h, Release(o, place, shard)), o, place, shard)
  {
    SumToUpdate(h.objs[o].ctr, shard, DecrementAndTag(h.objs[o].ctr[shard]), |h.objs[o].ctr|);
  }

  lemma RelocateEffect(h: Heap, o: ObjId, place: Place, to: Place)
    requires Ok(h, Relocate(o, place, to))
    ensures Relocated(h, Apply(h, Relocate(o, place, to)), o, place, to)
  {
  }

  lemma CompensateEffect(h: Heap, o: ObjId, from: Place, shard: nat)
    requires Ok(h, Compensate(o, from, shard))
    ensures Compensated(h, Apply(h, Compensate(o, from, shard)), o, from)
  {
    SumToUpdate(h.objs[o].ctr, shard, Increment(h.objs[o].ctr[shard]), |h.objs[o].ctr|);
  }

  lemma CreateEffect(h: Heap, t: nat, o: ObjId, addr: nat, shard: nat)
    requires Ok(h, Create(t, o, addr, shard))
    ensures Created(h, Apply(h, Create(t, o, addr, shard)), t, o, addr)
  {
  }

  lemma InitWeakEffect(h: Heap, o: ObjId, w: ObjId, addr: nat, shard: nat)
    requires Ok(h, InitWeak(o, w, addr, shard))
    ensures Downgraded(h, Apply(h, InitWeak(o, w, addr, shard)), o, w, addr)
  {
  }

  /** The handle that a cell holds goes to the thread. */
  lemma TakeOutEffect(h: Heap, t: nat, c: nat, o: ObjId)
    requires CellsAgree(h) && o in h.objs
    ensures var h1 := TakeOut(h, t, c);
      && h1.objs.Keys == h.objs.Keys && h1.cells == h.cells && h1.shards == h.shards
      && h1.objs[o] == h.objs[o].(owners := h1.objs[o].owners)
      && forall q :: h1.objs[o].owners[q] == h.objs[o].owners[q]
           + if InCellNow(h, c) == Some(o) then Once(q == InThread(t)) - Once(q == InCell(c)) else 0
  {
    assert CellOk(h, o, c);
  }

  lemma ExchangeEffectAt(h: Heap, t: nat, c: nat, new_: Option<ObjId>, o: ObjId)
    requires CellsAgree(h) && Ok(h, Exchange(t, c, new_)) && o in h.objs
    ensures o in Apply(h, Exchange(t, c, new_)).objs
    ensures ExchangedAt(h, Apply(h, Exchange(t, c, new_)), t, c, new_, o)
  {
    TakeOutEffect(h, t, c, o);
    var h1 := TakeOut(h, t, c);
    if new_ == Some(o) {
      assert h1.objs[o].owners[InThread(t)] > 0;
    }
  }

  lemma ExchangeEffectCell(h: Heap, t: nat, c: nat, new_: Option<ObjId>)
    requires CellsAgree(h) && Ok(h, Exchange(t, c, new_))
    ensures OnlyCell(h, Apply(h, Exchange(t, c, new_)), c) && InCellNow(Apply(h, Exchange(t, c, new_)), c) == new_
  {
    assert TakeOut(h, t, c).objs.Keys == h.objs.Keys;
  }

  lemma ExchangeEffect(h: Heap, t: nat, c: nat, new_: Option<ObjId>)
    requires CellsAgree(h) && Ok(h, Exchange(t, c, new_))
    ensures Exchanged(h, Apply(h, Exchange(t, c, new_)), t, c, new_)
  {
    var h' := Apply(h, Exchange(t, c, new_));
    ExchangeEffectCell(h, t, c, new_);
    forall o | o in h.objs ensures o in h'.objs && ExchangedAt(h, h', t, c, new_, o) {
      ExchangeEffectAt(h, t, c, new_, o);
    }
  }

  /** Putting in a copy changes one object, by one handle and one debt. */
  lemma PutCopyEffect(h: Heap, c: nat, new_: ObjId, from: Place, o: ObjId)
    requires new_ in h.objs && o in h.objs
    ensures var h1 := PutCopy(h, c, new_, from);
      && o in h1.objs && h1.objs[o] == h.objs[o].(owners := h1.objs[o].owners, owed := h1.objs[o].owed)
      && (forall q :: h1.objs[o].owed[q] == h.objs[o].owed[q] + Once(o == new_ && q == from))
      && (forall q :: h1.objs[o].owners[q] == h.objs[o].owners[q] + Once(o == new_ && q == InCell(c)))
  {
  }

  lemma InstallEffectAt(h: Heap, t: nat, c: nat, new_: ObjId, from: Place, o: ObjId)
    requires CellsAgree(h) && Ok(h, Install(t, c, new_, from)) && o in h.objs
    ensures o in Apply(h, Install(t, c, new_, from)).objs
    ensures InstalledAt(h, Apply(h, Install(t, c, new_, from)), t, c, new_, from, o)
  {
    TakeOutEffect(h, t, c, o);
    TakeOutEffect(h, t, c, new_);
    PutCopyEffect(TakeOut(h, t, c), c, new_, from, o);
  }

  lemma InstallEffectCell(h: Heap, t: nat, c: nat, new_: ObjId, from: Place)
    requires CellsAgree(h) && Ok(h, Install(t, c, new_, from))
    ensures OnlyCell(h, Apply(h, Install(t, c, new_, from)), c) && InCellNow(Apply(h, Install(t, c, new_, from)), c) == Some(new_)
  {
    assert TakeOut(h, t, c).objs.Keys == h.objs.Keys;
  }

  lemma InstallEffect(h: Heap, t: nat, c: nat, new_: ObjId, from: Place)
    requires CellsAgree(h) && Ok(h, Install(t, c, new_, from))
    ensures Installed(h, Apply(h, Install(t, c, new_, from)), t, c, new_, from)
  {
    var h' := Apply(h, Install(t, c, new_, from));
    InstallEffectCell(h, t, c, new_, from);
    forall o | o in h.objs ensures o in h'.objs && InstalledAt(h, h', t, c, new_, from, o) {
      InstallEffectAt(h, t, c, new_, from, o);
    }
  }
}
