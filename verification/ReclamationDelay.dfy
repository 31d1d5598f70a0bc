/** How many shallow passes it takes to free a dead object, and a dead chain of objects. */
module ReclamationDelay {
  import opened Options
  import opened Heap
  import opened CollectorEffects
  import opened DeepCollection

  /** One shallow update: updates lead from `pre` to `mid`, frees from `mid` to `post`. */
  datatype Update = Update(pre: Heap, mid: Heap, post: Heap, next: set<ObjId>)

  function All(u: Update): set<ObjId> { TrackedOf(u.pre, u.pre.objs.Keys) }

  /** It covers everything that is tracked, and nothing else is going on. */
  ghost predicate Shallow(u: Update) {
    && Settled(u.pre) && Calm(u.post) && NoneReady(u.post)
    && ExactPass(u.pre, u.mid, u.post, All(u), u.next)
  }

  ghost predicate ShallowRun(us: seq<Update>) {
    && (forall k :: 0 <= k < |us| ==> Shallow(us[k]))
    && (forall k :: 0 < k < |us| ==> us[k].pre == us[k - 1].post)
  }

  // ----- one dead object

  /** Passes until a dead object is freed, counted from its state. */
  function Delay(h: Heap, o: ObjId): nat
    requires TrackedIn(h, o)
  {
    var ref := if HasBackRef(h.objs, o) then 1 else 0;
    if h.objs[o].life.DefaultState? then 2 + ref
    else if Tagged(h.objs[o].ctr) then 3 + ref
    else 1 + ref
  }

  /** What the updates make of a dead object. */
  lemma DeadVisited(u: Update, o: ObjId)
    requires Shallow(u) && TrackedIn(u.pre, o) && Ownerless(u.pre, o)
    ensures o in u.mid.objs && o in u.post.objs
    ensures Ownerless(u.post, o) && u.post.objs[o].ctr == u.mid.objs[o].ctr
    ensures u.post.objs[o].life == if u.mid.objs[o].life.ReadyToFree? then Freed else u.mid.objs[o].life
    ensures Core(u.mid.objs[o]) == Core(AfterVisit(u.pre, o, {}))
    ensures HasBackRef(u.post.objs, o) == RefAfterVisit(u.pre, o, {})
  {
    var done := TrackedOf(u.pre, All(u));
    VisitedLife(u.pre, u.mid, done, o);
    FreedLife(u.mid, u.post, ReadyOf(u.mid, done), o);
    assert VisitedAt(u.pre, u.mid, done, {}, o);
    assert Core(u.mid.objs[o]).life == u.mid.objs[o].life;
    RefKept(u.mid, u.post, ReadyOf(u.mid, done), o);
  }

  lemma RefKept(mid: Heap, h': Heap, freed: set<ObjId>, o: ObjId)
    requires FreedAll(mid, h', freed) && o in mid.objs
    ensures HasBackRef(h'.objs, o) == HasBackRef(mid.objs, o)
  {
    assert FreedAt(mid, h', freed, o);
    if mid.objs[o].weak.Some? {
      assert FreedAt(mid, h', freed, mid.objs[o].weak.value);
    }
  }

  lemma DelayStep(u: Update, o: ObjId)
    requires Shallow(u) && TrackedIn(u.pre, o) && Ownerless(u.pre, o)
    ensures o in u.post.objs
    ensures Delay(u.pre, o) == 1 ==> u.post.objs[o].life.Freed?
    ensures Delay(u.pre, o) > 1 ==> TrackedIn(u.post, o) && Ownerless(u.post, o) && Delay(u.post, o) == Delay(u.pre, o) - 1
  {
    DeadVisited(u, o);
    DeadSum(u.pre, o);
    assert Core(u.mid.objs[o]).life == u.mid.objs[o].life && Core(u.mid.objs[o]).ctr == u.mid.objs[o].ctr;
  }

  lemma FreedStays(u: Update, o: ObjId)
    requires Shallow(u) && o in u.pre.objs && u.pre.objs[o].life.Freed?
    ensures o in u.post.objs && u.post.objs[o].life.Freed?
  {
    PassTracked(u.pre, u.mid, u.post, All(u), u.next, o);
  }

  /**
   A dead object is freed by exactly the pass that `Delay` says: two passes from DefaultState, one
   more while its back reference is set, and three from RequiresReChecking with a tag left.
   */
  lemma {:induction false} DelayIsExact(us: seq<Update>, o: ObjId, k: nat)
    requires ShallowRun(us) && k < |us| && TrackedIn(us[0].pre, o) && Ownerless(us[0].pre, o)
    ensures var h, d := us[k].post, Delay(us[0].pre, o);
      && o in h.objs
      && (h.objs[o].life.Freed? <==> d <= k + 1)
      && (k + 1 < d ==> TrackedIn(h, o) && Ownerless(h, o) && Delay(h, o) == d - k - 1)
  {
    if k == 0 {
      DelayStep(us[0], o);
    } else {
      DelayIsExact(us, o, k - 1);
      assert us[k].pre == us[k - 1].post;
      if us[k].pre.objs[o].life.Freed? {
        FreedStays(us[k], o);
      } else {
        DelayStep(us[k], o);
      }
    }
  }

  // ----- a chain

  predicate LinkFree(h: Heap, o: ObjId) { o in h.objs && h.objs[o].life.Freed? }

  predicate LinkWaits(h: Heap, o: ObjId) {
    o in h.objs && h.objs[o].life.DefaultState? && h.objs[o].weak.None?
  }

  predicate LinkHeld(h: Heap, o: ObjId, p: ObjId) { LinkWaits(h, o) && h.objs[o].owners == multiset{InObject(p)} }

  predicate LinkAt(h: Heap, c: seq<ObjId>, f: nat, i: nat)
    requires i < |c|
  {
    if i < f then LinkFree(h, c[i])
    else if i == f then LinkWaits(h, c[i]) && Ownerless(h, c[i])
    else LinkHeld(h, c[i], c[i - 1])
  }

  /**
   The first `f` objects of the chain are freed, the next one is dead, and each later one is held
   by its predecessor only; nobody has been downgraded.
   */
  ghost predicate Chain(h: Heap, c: seq<ObjId>, f: nat) {
    forall i {:trigger LinkAt(h, c, f, i)} :: 0 <= i < |c| ==> LinkAt(h, c, f, i)
  }

  lemma WeakKept(u: Update, o: ObjId)
    requires Shallow(u) && o in u.pre.objs
    ensures o in u.post.objs && u.post.objs[o].weak == u.pre.objs[o].weak
  {
    var done := TrackedOf(u.pre, All(u));
    assert VisitedAt(u.pre, u.mid, done, {}, o);
    assert Core(u.mid.objs[o]).weak == u.mid.objs[o].weak;
    assert FreedAt(u.mid, u.post, ReadyOf(u.mid, done), o);
  }

  /** A link whose predecessor the update frees is dead afterwards; otherwise it just waits. */
  lemma LinkStep(u: Update, o: ObjId, p: ObjId)
    requires Shallow(u) && LinkHeld(u.pre, o, p) && p in u.post.objs
    ensures if u.post.objs[p].life.Freed? then LinkWaits(u.post, o) && Ownerless(u.post, o) else LinkHeld(u.post, o, p)
  {
    assert InObject(p) in u.pre.objs[o].owners;
    PassOnLive(u.pre, u.mid, u.post, All(u), u.next, o);
    forall place
      ensures u.post.objs[o].owners[place] == if u.post.objs[p].life.Freed? then 0 else u.pre.objs[o].owners[place]
    {
      PassOwners(u.pre, u.mid, u.post, All(u), u.next, o, place);
    }
    WeakKept(u, o);
  }

  lemma HeldNotFreed(u: Update, o: ObjId, p: ObjId)
    requires Shallow(u) && LinkHeld(u.pre, o, p)
    ensures o in u.post.objs && !u.post.objs[o].life.Freed?
  {
    assert InObject(p) in u.pre.objs[o].owners;
    PassFrees(u.pre, u.mid, u.post, All(u), u.next, o);
  }

  lemma HeldByHeld(u: Update, o: ObjId, p: ObjId, q: ObjId)
    requires Shallow(u) && LinkHeld(u.pre, o, p) && LinkHeld(u.pre, p, q)
    ensures LinkHeld(u.post, o, p)
  {
    HeldNotFreed(u, p, q);
    LinkStep(u, o, p);
  }

  /** After the first of two updates the later links are as before. */
  lemma ChainHolds(u: Update, c: seq<ObjId>, f: nat, i: nat)
    requires Shallow(u) && Chain(u.pre, c, f) && f < i < |c|
    ensures LinkHeld(u.post, c[i], c[i - 1])
  {
    assert LinkAt(u.pre, c, f, i) && LinkAt(u.pre, c, f, i - 1);
    if i - 1 > f {
      HeldByHeld(u, c[i], c[i - 1], c[i - 2]);
    } else {
      DelayStep(u, c[f]);
      LinkStep(u, c[i], c[f]);
    }
  }

  lemma HeadFreed(u: Update, v: Update, c: seq<ObjId>, f: nat)
    requires Shallow(u) && Shallow(v) && v.pre == u.post && f < |c| && Chain(u.pre, c, f)
    ensures LinkFree(v.post, c[f]) && !LinkFree(u.post, c[f])
  {
    assert LinkAt(u.pre, c, f, f);
    DelayStep(u, c[f]);
    DelayStep(v, c[f]);
  }

  lemma NextLinkDies(u: Update, v: Update, c: seq<ObjId>, f: nat)
    requires Shallow(u) && Shallow(v) && v.pre == u.post && f + 1 < |c| && Chain(u.pre, c, f)
    ensures LinkAt(v.post, c, f + 1, f + 1)
  {
    ChainHolds(u, c, f, f + 1);
    HeadFreed(u, v, c, f);
    LinkStep(v, c[f + 1], c[f]);
  }

  lemma TwoLinksHold(u: Update, c: seq<ObjId>, f: nat, i: nat)
    requires Shallow(u) && Chain(u.pre, c, f) && f + 1 < i < |c|
    ensures LinkHeld(u.post, c[i], c[i - 1]) && LinkHeld(u.post, c[i - 1], c[i - 2])
  {
    ChainHolds(u, c, f, i);
    ChainHolds(u, c, f, i - 1);
  }

  lemma LaterLinkWaits(u: Update, v: Update, c: seq<ObjId>, f: nat, i: nat)
    requires Shallow(u) && Shallow(v) && v.pre == u.post && f + 1 < i < |c| && Chain(u.pre, c, f)
    ensures LinkAt(v.post, c, f + 1, i)
  {
    TwoLinksHold(u, c, f, i);
    HeldByHeld(v, c[i], c[i - 1], c[i - 2]);
  }

  /** Two updates free one link and leave the next one dead. */
  lemma ChainStep(u: Update, v: Update, c: seq<ObjId>, f: nat, i: nat)
    requires Shallow(u) && Shallow(v) && v.pre == u.post && f < |c| && i < |c| && Chain(u.pre, c, f)
    ensures LinkAt(v.post, c, f + 1, i)
  {
    if i < f {
      assert LinkAt(u.pre, c, f, i);
      FreedStays(u, c[i]);
      FreedStays(v, c[i]);
    } else if i == f {
      HeadFreed(u, v, c, f);
    } else if i == f + 1 {
      NextLinkDies(u, v, c, f);
    } else {
      LaterLinkWaits(u, v, c, f, i);
    }
  }

  lemma {:induction false} ChainAfter(us: seq<Update>, c: seq<ObjId>, f: nat)
    requires ShallowRun(us) && us != [] && Chain(us[0].pre, c, 0) && f <= |c| && 2 * f <= |us|
    ensures Chain(if f == 0 then us[0].pre else us[2 * f - 1].post, c, f)
  {
    if f > 0 {
      ChainAfter(us, c, f - 1);
      var u, v := us[2 * f - 2], us[2 * f - 1];
      forall i | 0 <= i < |c| ensures LinkAt(v.post, c, f, i) { ChainStep(u, v, c, f - 1, i); }
    }
  }

  /** Layer by layer: a dead chain of n objects is gone after 2n shallow updates and not one sooner. */
  lemma ChainDelay(us: seq<Update>, c: seq<ObjId>)
    requires ShallowRun(us) && c != [] && 2 * |c| <= |us| && Chain(us[0].pre, c, 0)
    ensures forall i :: 0 <= i < |c| ==> LinkFree(us[2 * |c| - 1].post, c[i])
    ensures !LinkFree(us[2 * |c| - 2].post, c[|c| - 1])
  {
    ChainAfter(us, c, |c|);
    forall i | 0 <= i < |c| ensures LinkFree(us[2 * |c| - 1].post, c[i]) {
      assert LinkAt(us[2 * |c| - 1].post, c, |c|, i);
    }
    LastLinkLate(us, c);
  }

  lemma LastLinkLate(us: seq<Update>, c: seq<ObjId>)
    requires ShallowRun(us) && c != [] && 2 * |c| <= |us| && Chain(us[0].pre, c, 0)
    ensures !LinkFree(us[2 * |c| - 2].post, c[|c| - 1])
  {
    ChainAfter(us, c, |c| - 1);
    HeadFreed(us[2 * |c| - 2], us[2 * |c| - 1], c, |c| - 1);
  }
}
