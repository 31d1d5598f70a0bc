/**
 What one deep update frees when nothing else runs: of the tracked objects, exactly those that no
 handle from outside leads to, provided that no dead object was left in RequiresReChecking with a
 tag on one of its shards.
 */
module DeepCollection {
  import opened Options
  import opened Counters
  import opened Heap
  import opened CollectorEffects

  // ----- the heap between two updates

  predicate StoredLiveAt(h: Heap, o: ObjId, place: Place) {
    o in h.objs && place in h.objs[o].owners && Container(place).Some? ==>
      Container(place).value in h.objs && !h.objs[Container(place).value].life.Freed?
  }

  /** Freed objects are not referred to and no longer hold handles. */
  ghost predicate Settled(h: Heap) {
    && Calm(h) && NoneReady(h)
    && (forall o, place {:trigger StoredLiveAt(h, o, place)} :: StoredLiveAt(h, o, place))
    && (forall o :: o in h.objs && h.objs[o].life.Freed? ==> h.objs[o].owners == multiset{})
  }

  /** Tracking what was submitted leaves a settled heap settled. */
  lemma SubmittedSettled(h: Heap)
    requires Settled(h) && Calm(WithSubmitted(h))
    ensures Settled(WithSubmitted(h))
  {
    forall o, place ensures StoredLiveAt(WithSubmitted(h), o, place) {
      assert StoredLiveAt(h, o, place);
    }
  }

  predicate Ownerless(h: Heap, o: ObjId) { o in h.objs && h.objs[o].owners == multiset{} }

  /** A dead object that waits for its re-check with a tag left on a shard. */
  predicate LeftBehind(h: Heap, o: ObjId) {
    Ownerless(h, o) && h.objs[o].life.RequiresReChecking? && Tagged(h.objs[o].ctr)
  }

  // ----- what any number of passes keep

  predicate Gone(h: Heap, place: Place) {
    Container(place).Some? && Container(place).value in h.objs && h.objs[Container(place).value].life.Freed?
  }

  /** An object of `h0` in the later heap `h`: handles disappear only with the freed objects that held them. */
  ghost predicate DescendsAt(h0: Heap, h: Heap, o: ObjId) {
    o in h0.objs ==>
      && o in h.objs
      && (h0.objs[o].life.Freed? ==> h.objs[o].life.Freed?)
      && (TrackedIn(h0, o) ==> TrackedIn(h, o) || h.objs[o].life.Freed?)
      && (h.objs[o].life.Freed? ==> h0.objs[o].life.Freed? || TrackedIn(h0, o))
      && (TrackedIn(h, o) ==> TrackedIn(h0, o))
      && (forall place :: h.objs[o].owners[place] == if Gone(h, place) then 0 else h0.objs[o].owners[place])
  }

  /** Whoever is dead is about to be looked at, except those left behind; whoever is re-checked is dead. */
  ghost predicate WaitingAt(h0: Heap, h: Heap, todo: set<ObjId>, o: ObjId) {
    o in h.objs ==>
      && (h.objs[o].life.RequiresReChecking? ==> o in todo && Ownerless(h, o) && !Tagged(h.objs[o].ctr))
      && (TrackedIn(h, o) && Ownerless(h, o) ==> o in todo || LeftBehind(h0, o))
      && (LeftBehind(h0, o) ==> h.objs[o].life.DefaultState? && Ownerless(h, o) && o !in todo)
  }

  ghost predicate DeepInv(h0: Heap, h: Heap, todo: set<ObjId>) {
    && h.objs.Keys == h0.objs.Keys && Settled(h)
    && (forall o {:trigger DescendsAt(h0, h, o)} :: DescendsAt(h0, h, o))
    && (forall o {:trigger WaitingAt(h0, h, todo, o)} :: WaitingAt(h0, h, todo, o))
  }

  // ----- one object in one pass

  lemma DeadSum(h: Heap, o: ObjId)
    requires Calm(h) && o in h.objs
    ensures Ownerless(h, o) <==> Sum(h.objs[o].ctr) == 0
  {
    assert CountOk(h, o);
  }

  /** The updates of a pass change neither handles nor who is tracked, except that some get ready. */
  lemma VisitedLife(h: Heap, mid: Heap, done: set<ObjId>, o: ObjId)
    requires Calm(h) && Visited(h, mid, done, {}) && o in h.objs && !h.objs[o].life.ReadyToFree?
    requires o in done ==> TrackedIn(h, o)
    ensures o in mid.objs && mid.objs[o].owners == h.objs[o].owners
    ensures mid.objs[o].life.Freed? <==> h.objs[o].life.Freed?
    ensures TrackedIn(h, o) <==> TrackedIn(mid, o) || mid.objs[o].life.ReadyToFree?
    ensures mid.objs[o].life.ReadyToFree? ==> o in done && Ownerless(h, o) && h.objs[o].life.RequiresReChecking?
    ensures o !in done ==> mid.objs[o].life == h.objs[o].life && mid.objs[o].ctr == h.objs[o].ctr
  {
    assert VisitedAt(h, mid, done, {}, o);
    DeadSum(h, o);
    assert Core(mid.objs[o]).life == mid.objs[o].life && Core(mid.objs[o]).owners == mid.objs[o].owners
      && Core(mid.objs[o]).ctr == mid.objs[o].ctr;
  }

  lemma FreedLife(mid: Heap, h': Heap, freed: set<ObjId>, o: ObjId)
    requires FreedAll(mid, h', freed) && o in mid.objs
    ensures o in h'.objs && FreedFrom(mid.objs[o], h'.objs[o], freed, o)
    ensures o in Losers(mid, freed) <==> Affected(mid.objs[o], freed)
    ensures mid.objs[o].owners == multiset{} ==>
      h'.objs[o].owners == multiset{} && h'.objs[o].ctr == mid.objs[o].ctr && o !in Losers(mid, freed)
    ensures mid.objs[o].owners != multiset{} && h'.objs[o].owners == multiset{} ==> o in Losers(mid, freed)
  {
    assert FreedAt(mid, h', freed, o);
    if mid.objs[o].owners == multiset{} {
      assert forall place :: h'.objs[o].owners[place] == 0;
    } else if h'.objs[o].owners == multiset{} {
      var place :| place in mid.objs[o].owners;
      assert h'.objs[o].owners[place] == 0;
      assert StoredIn(place, freed);
    }
  }

  /** Who has been freed after the pass. */
  lemma PassFrees(h: Heap, mid: Heap, h': Heap, keys: set<ObjId>, next: set<ObjId>, o: ObjId)
    requires Settled(h) && ExactPass(h, mid, h', keys, next) && o in h.objs
    ensures var freed := ReadyOf(mid, TrackedOf(h, keys));
      && o in mid.objs && o in h'.objs
      && (h'.objs[o].life.Freed? <==> h.objs[o].life.Freed? || o in freed)
      && (o in freed <==> mid.objs[o].life.ReadyToFree?)
      && (o in freed ==> TrackedIn(h, o) && Ownerless(h, o))
  {
    VisitedLife(h, mid, TrackedOf(h, keys), o);
    FreedLife(mid, h', ReadyOf(mid, TrackedOf(h, keys)), o);
  }

  lemma PassOwners(h: Heap, mid: Heap, h': Heap, keys: set<ObjId>, next: set<ObjId>, o: ObjId, place: Place)
    requires Settled(h) && ExactPass(h, mid, h', keys, next) && o in h.objs
    ensures o in h'.objs && h'.objs[o].owners[place] == if Gone(h', place) then 0 else h.objs[o].owners[place]
  {
    VisitedLife(h, mid, TrackedOf(h, keys), o);
    var freed := ReadyOf(mid, TrackedOf(h, keys));
    FreedLife(mid, h', freed, o);
    if Container(place).Some? && Container(place).value in h.objs {
      PassFrees(h, mid, h', keys, next, Container(place).value);
      assert StoredLiveAt(h, o, place);
    }
  }

  lemma PassSettled(h: Heap, mid: Heap, h': Heap, keys: set<ObjId>, next: set<ObjId>)
    requires Settled(h) && ExactPass(h, mid, h', keys, next) && Calm(h') && NoneReady(h')
    ensures Settled(h') && h'.objs.Keys == h.objs.Keys
  {
    forall o, place ensures StoredLiveAt(h', o, place) {
      if o in h'.objs && place in h'.objs[o].owners && Container(place).Some? {
        PassOwners(h, mid, h', keys, next, o, place);
        assert StoredLiveAt(h, o, place);
      }
    }
    forall o | o in h'.objs && h'.objs[o].life.Freed? ensures h'.objs[o].owners == multiset{} {
      PassFrees(h, mid, h', keys, next, o);
      forall place ensures h'.objs[o].owners[place] == 0 { PassOwners(h, mid, h', keys, next, o, place); }
    }
  }

  lemma PassTracked(h: Heap, mid: Heap, h': Heap, keys: set<ObjId>, next: set<ObjId>, o: ObjId)
    requires Settled(h) && ExactPass(h, mid, h', keys, next) && o in h.objs
    ensures o in h'.objs
    ensures TrackedIn(h, o) <==> TrackedIn(h', o) || (h'.objs[o].life.Freed? && !h.objs[o].life.Freed?)
    ensures h.objs[o].life.Freed? ==> h'.objs[o].life.Freed?
  {
    VisitedLife(h, mid, TrackedOf(h, keys), o);
    FreedLife(mid, h', ReadyOf(mid, TrackedOf(h, keys)), o);
  }

  lemma PassDescends(h0: Heap, h: Heap, mid: Heap, h': Heap, keys: set<ObjId>, next: set<ObjId>, o: ObjId)
    requires Settled(h) && ExactPass(h, mid, h', keys, next) && h.objs.Keys == h0.objs.Keys && DescendsAt(h0, h, o)
    ensures DescendsAt(h0, h', o)
  {
    if o in h0.objs {
      PassTracked(h, mid, h', keys, next, o);
      forall place
        ensures h'.objs[o].owners[place] == if Gone(h', place) then 0 else h0.objs[o].owners[place]
      {
        PassOwners(h, mid, h', keys, next, o, place);
        if Gone(h, place) { PassTracked(h, mid, h', keys, next, Container(place).value); }
      }
    }
  }

  /** A dead tracked object that the pass looks at, unless it is left behind, is re-checked next or freed. */
  lemma PassOnDead(h: Heap, mid: Heap, h': Heap, keys: set<ObjId>, next: set<ObjId>, o: ObjId)
    requires Settled(h) && ExactPass(h, mid, h', keys, next) && TrackedIn(h, o) && Ownerless(h, o)
    ensures o in h'.objs && h'.objs[o].owners == multiset{}
    ensures o in keys && !LeftBehind(h, o) ==>
      || h'.objs[o].life.Freed?
      || (h'.objs[o].life.RequiresReChecking? && !Tagged(h'.objs[o].ctr) && o in next)
    ensures o in keys && LeftBehind(h, o) ==> h'.objs[o].life.DefaultState? && o !in next
    ensures o !in keys ==> h'.objs[o].life == h.objs[o].life && o !in next
  {
    var done := TrackedOf(h, keys);
    VisitedLife(h, mid, done, o);
    FreedLife(mid, h', ReadyOf(mid, done), o);
    DeadSum(h, o);
    assert VisitedAt(h, mid, done, {}, o);
    assert Core(mid.objs[o]).life == mid.objs[o].life && Core(mid.objs[o]).ctr == mid.objs[o].ctr;
  }

  /** A live tracked object that the pass looks at is in the default state afterwards. */
  lemma PassOnLive(h: Heap, mid: Heap, h': Heap, keys: set<ObjId>, next: set<ObjId>, o: ObjId)
    requires Settled(h) && ExactPass(h, mid, h', keys, next) && TrackedIn(h, o) && !Ownerless(h, o)
    ensures o in h'.objs
    ensures o in keys || h.objs[o].life.DefaultState? ==> h'.objs[o].life.DefaultState?
    ensures Ownerless(h', o) ==> o in next
  {
    var done := TrackedOf(h, keys);
    VisitedLife(h, mid, done, o);
    FreedLife(mid, h', ReadyOf(mid, done), o);
    DeadSum(h, o);
    assert VisitedAt(h, mid, done, {}, o);
    assert Core(mid.objs[o]).life == mid.objs[o].life;
  }

  // ----- passes

  lemma FirstPass(h0: Heap, mid: Heap, h: Heap, keys: set<ObjId>, next: set<ObjId>)
    requires Settled(h0) && keys == TrackedOf(h0, h0.objs.Keys)
    requires ExactPass(h0, mid, h, keys, next) && Calm(h) && NoneReady(h)
    ensures DeepInv(h0, h, next)
  {
    PassSettled(h0, mid, h, keys, next);
    forall o ensures DescendsAt(h0, h, o) {
      StartDescends(h0, o);
      PassDescends(h0, h0, mid, h, keys, next, o);
    }
    forall o ensures WaitingAt(h0, h, next, o) {
      if o in h.objs {
        PassTracked(h0, mid, h, keys, next, o);
        if TrackedIn(h0, o) {
          if Ownerless(h0, o) { PassOnDead(h0, mid, h, keys, next, o); } else { PassOnLive(h0, mid, h, keys, next, o); }
        }
      }
    }
  }

  lemma StartDescends(h0: Heap, o: ObjId)
    requires Settled(h0)
    ensures DescendsAt(h0, h0, o)
  {
    if o in h0.objs {
      forall place ensures Gone(h0, place) ==> h0.objs[o].owners[place] == 0 {
        assert StoredLiveAt(h0, o, place);
      }
    }
  }

  lemma NextPass(h0: Heap, h: Heap, mid: Heap, h': Heap, todo: set<ObjId>, next: set<ObjId>)
    requires DeepInv(h0, h, todo) && ExactPass(h, mid, h', todo, next) && Calm(h') && NoneReady(h')
    ensures DeepInv(h0, h', next)
  {
    PassSettled(h, mid, h', todo, next);
    forall o ensures DescendsAt(h0, h', o) {
      assert DescendsAt(h0, h, o);
      PassDescends(h0, h, mid, h', todo, next, o);
    }
    forall o ensures WaitingAt(h0, h', next, o) {
      if o in h'.objs {
        assert WaitingAt(h0, h, todo, o);
        PassTracked(h, mid, h', todo, next, o);
        if TrackedIn(h, o) {
          if Ownerless(h, o) { PassOnDead(h, mid, h', todo, next, o); } else { PassOnLive(h, mid, h', todo, next, o); }
        }
      }
    }
  }

  // ----- completeness

  /** `p`, or its weak reference, holds a handle to `o`. */
  predicate Holds(h: Heap, p: ObjId, o: ObjId) { Has(h, o, InObject(p)) || Has(h, o, InWeakRef(p)) }

  predicate IsOutside(h: Heap, place: Place) { Container(place).Some? ==> !TrackedIn(h, Container(place).value) }

  /** A handle to `o` lies outside the tracked objects. */
  ghost predicate External(h: Heap, o: ObjId) {
    o in h.objs && exists place :: place in h.objs[o].owners && IsOutside(h, place)
  }

  ghost predicate IsPath(h: Heap, path: seq<ObjId>) {
    && path != [] && External(h, path[0])
    && (forall k :: 0 <= k < |path| ==> TrackedIn(h, path[k]))
    && (forall k :: 0 < k < |path| ==> Holds(h, path[k - 1], path[k]))
  }

  ghost predicate ReachableFromOutside(h: Heap, o: ObjId) {
    exists path :: IsPath(h, path) && path[|path| - 1] == o
  }

  /** Strong handles between tracked objects form no cycle: holders rank below what they hold. */
  ghost predicate Acyclic(h: Heap, rank: map<ObjId, nat>) {
    forall p, o :: TrackedIn(h, p) && Holds(h, p, o) ==> p in rank && o in rank && rank[p] < rank[o]
  }

  /** Nothing on a path from outside is ever freed. */
  lemma {:induction false} PathSurvives(h0: Heap, h: Heap, todo: set<ObjId>, path: seq<ObjId>, k: nat)
    requires Settled(h0) && DeepInv(h0, h, todo) && IsPath(h0, path) && k < |path|
    ensures path[k] in h.objs && !h.objs[path[k]].life.Freed?
  {
    var o := path[k];
    assert DescendsAt(h0, h, o) && TrackedIn(h0, o);
    if k == 0 {
      var place :| place in h0.objs[o].owners && IsOutside(h0, place);
      assert StoredLiveAt(h0, o, place);
      if Container(place).Some? {
        assert DescendsAt(h0, h, Container(place).value);
      }
      assert !Gone(h, place);
      assert h.objs[o].owners[place] == h0.objs[o].owners[place];
    } else {
      PathSurvives(h0, h, todo, path, k - 1);
      var p := path[k - 1];
      assert Holds(h0, path[k - 1], path[k]);
      var place := if Has(h0, o, InObject(p)) then InObject(p) else InWeakRef(p);
      assert !Gone(h, place);
      assert h.objs[o].owners[place] == h0.objs[o].owners[place];
    }
  }

  lemma PathExtends(h: Heap, path: seq<ObjId>, p: ObjId, o: ObjId)
    requires IsPath(h, path) && path[|path| - 1] == p && Holds(h, p, o) && TrackedIn(h, o)
    ensures ReachableFromOutside(h, o)
  {
    assert IsPath(h, path + [o]);
  }

  /** A survivor is held from outside, or by another survivor. */
  lemma SurvivorIsHeld(h0: Heap, h: Heap, o: ObjId) returns (p: Option<ObjId>)
    requires Settled(h0) && DeepInv(h0, h, {}) && TrackedIn(h, o) && !LeftBehind(h0, o)
    ensures TrackedIn(h0, o)
    ensures p.None? ==> External(h0, o)
    ensures p.Some? ==> Holds(h0, p.value, o) && TrackedIn(h0, p.value) && TrackedIn(h, p.value)
  {
    assert WaitingAt(h0, h, {}, o) && DescendsAt(h0, h, o);
    var place :| place in h.objs[o].owners;
    assert h.objs[o].owners[place] == h0.objs[o].owners[place] > 0;
    if IsOutside(h0, place) {
      p := None;
    } else {
      p := Container(place);
      assert DescendsAt(h0, h, p.value);
    }
  }

  /** When nothing is left to re-check, a tracked object that is not dead was held from outside all along. */
  lemma {:induction false} SurvivorIsReachable(h0: Heap, h: Heap, rank: map<ObjId, nat>, o: ObjId)
    requires Settled(h0) && DeepInv(h0, h, {}) && Acyclic(h0, rank) && TrackedIn(h, o)
    requires forall p :: !LeftBehind(h0, p)
    ensures ReachableFromOutside(h0, o)
    decreases if o in rank then rank[o] else 0
  {
    var p := SurvivorIsHeld(h0, h, o);
    if p.None? {
      assert IsPath(h0, [o]);
    } else {
      SurvivorIsReachable(h0, h, rank, p.value);
      var path :| IsPath(h0, path) && path[|path| - 1] == p.value;
      PathExtends(h0, path, p.value, o);
    }
  }

  /** One object is complete: it was freed exactly if nothing from outside led to it. */
  ghost predicate CompleteAt(h0: Heap, h: Heap, o: ObjId) {
    TrackedIn(h0, o) ==> o in h.objs && (h.objs[o].life.Freed? <==> !ReachableFromOutside(h0, o))
  }

  ghost predicate Complete(h0: Heap, h: Heap) {
    forall o {:trigger CompleteAt(h0, h, o)} :: CompleteAt(h0, h, o)
  }

  lemma PathEndIsHeld(h: Heap, path: seq<ObjId>)
    requires IsPath(h, path)
    ensures !Ownerless(h, path[|path| - 1])
  {
    if |path| > 1 {
      assert Holds(h, path[|path| - 2], path[|path| - 1]);
    }
  }

  lemma DeadIsUnreachable(h0: Heap, o: ObjId)
    requires Ownerless(h0, o)
    ensures !ReachableFromOutside(h0, o)
  {
    forall path | IsPath(h0, path) ensures path[|path| - 1] != o { PathEndIsHeld(h0, path); }
  }

  /**
   A deep update that ran until nothing was left to re-check has freed exactly the tracked objects
   that nothing from outside led to, if and only if no object had been left behind: a dead one in
   RequiresReChecking with a tag falls back to DefaultState and is not looked at again.
   */
  lemma DeepComplete(h0: Heap, h: Heap, rank: map<ObjId, nat>)
    requires Settled(h0) && DeepInv(h0, h, {}) && Acyclic(h0, rank)
    ensures Complete(h0, h) <==> forall o :: !LeftBehind(h0, o)
  {
    if forall o :: !LeftBehind(h0, o) {
      forall o ensures CompleteAt(h0, h, o) {
        if TrackedIn(h0, o) {
          assert DescendsAt(h0, h, o);
          if ReachableFromOutside(h0, o) {
            var path :| IsPath(h0, path) && path[|path| - 1] == o;
            PathSurvives(h0, h, {}, path, |path| - 1);
          } else if TrackedIn(h, o) {
            SurvivorIsReachable(h0, h, rank, o);
          }
        }
      }
    } else {
      var o :| LeftBehind(h0, o);
      assert WaitingAt(h0, h, {}, o);
      DeadIsUnreachable(h0, o);
      assert !CompleteAt(h0, h, o);
    }
  }

  /** What a deep update that was left alone and ran to its end has achieved. */
  ghost predicate DeepResult(h0: Heap, h: Heap) {
    forall rank :: Acyclic(h0, rank) ==> (Complete(h0, h) <==> forall o :: !LeftBehind(h0, o))
  }

  lemma DeepResultHolds(h0: Heap, h: Heap)
    requires Settled(h0) && DeepInv(h0, h, {})
    ensures DeepResult(h0, h)
  {
    forall rank | Acyclic(h0, rank) ensures Complete(h0, h) <==> forall o :: !LeftBehind(h0, o) {
      DeepComplete(h0, h, rank);
    }
  }
}
