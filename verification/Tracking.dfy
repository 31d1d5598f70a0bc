/**
 The collector's books: which counter slots are pending, tracked or being freed. Slots are
 recycled by the allocator as soon as they are deallocated, also by a user's destructor that
 creates new objects on the collector thread while objects are being freed.
 */
module Tracking {
  import opened Options

  /** A fat pointer: the object, whose identity is never reused, and its counter slot. */
  datatype Fat = Fat(obj: nat, slot: nat)

  datatype TrackedState = DefaultState | RequiresReChecking | ReadyToFree

  datatype TrackedCounter = TrackedCounter(fat: Fat, state: TrackedState)

  /** How often a list names a slot. */
  function Times(list: seq<Fat>, slot: nat): nat {
    if list == [] then 0 else Times(list[..|list| - 1], slot) + if list[|list| - 1].slot == slot then 1 else 0
  }

  function TimesIn(shards: seq<seq<Fat>>, slot: nat): nat {
    if shards == [] then 0 else TimesIn(shards[..|shards| - 1], slot) + Times(shards[|shards| - 1], slot)
  }

  lemma {:induction false} TimesInUpdate(shards: seq<seq<Fat>>, k: nat, list: seq<Fat>, slot: nat)
    requires k < |shards|
    ensures TimesIn(shards[k := list], slot) == TimesIn(shards, slot) - Times(shards[k], slot) + Times(list, slot)
  {
    var n := |shards| - 1;
    if k < n {
      TimesInUpdate(shards[..n], k, list, slot);
      assert shards[k := list][..n] == shards[..n][k := list];
    } else {
      assert shards[k := list][..n] == shards[..n];
    }
  }

  lemma {:induction false} TimesHead(list: seq<Fat>, slot: nat)
    requires list != []
    ensures Times(list, slot) == Times(list[1..], slot) + if list[0].slot == slot then 1 else 0
  {
    if |list| > 1 {
      TimesHead(list[..|list| - 1], slot);
      assert list[1..][..|list| - 2] == list[..|list| - 1][1..];
    } else {
      assert list == [list[0]] && list[..0] == [] && list[1..] == [];
      assert Times(list[..0], slot) == 0 && Times(list[1..], slot) == 0;
    }
  }

  lemma {:induction false} NothingPending(shards: seq<seq<Fat>>, slot: nat)
    requires forall k :: 0 <= k < |shards| ==> shards[k] == []
    ensures TimesIn(shards, slot) == 0
  {
    if shards != [] {
      NothingPending(shards[..|shards| - 1], slot);
    }
  }

  class CollectorThreadState {
    var pending: seq<seq<Fat>>                 // per shard, each behind its lock
    var taken: seq<Fat>                        // taken out of a shard, not yet tracked
    var tracked: map<nat, TrackedCounter>
    var freeing: Option<Fat>                   // no longer tracked, its slot not yet deallocated
    var live: map<nat, nat>                    // the object whose counters a slot holds, submitted and not freed
    var freed: set<nat>                        // objects freed so far

    /** The books name each live slot exactly once, and no other slot. */
    ghost predicate SlotOk(slot: nat)
      reads this
    {
      TimesIn(pending, slot) + Times(taken, slot) + (if slot in tracked then 1 else 0)
        + (if freeing.Some? && freeing.value.slot == slot then 1 else 0)
      == if slot in live then 1 else 0
    }

    ghost predicate Known(f: Fat)
      reads this
    {
      f.slot in live && live[f.slot] == f.obj
    }

    ghost predicate Valid()
      reads this
    {
      && (forall slot {:trigger SlotOk(slot)} :: SlotOk(slot))
      && (forall k, i :: 0 <= k < |pending| && 0 <= i < |pending[k]| ==> Known(pending[k][i]))
      && (forall i :: 0 <= i < |taken| ==> Known(taken[i]))
      && (forall slot :: slot in tracked ==> tracked[slot].fat.slot == slot && Known(tracked[slot].fat))
      && (freeing.Some? ==> Known(freeing.value))
      && (forall slot :: slot in live ==> live[slot] !in freed)
      && (forall s1, s2 :: s1 in live && s2 in live && live[s1] == live[s2] ==> s1 == s2)
    }

    constructor (shards: nat)
      ensures Valid() && |pending| == shards && taken == [] && tracked == map[] && freeing == None
      ensures live == map[] && freed == {}
    {
      pending := seq(shards, _ => []);
      taken, tracked, freeing := [], map[], None;
      live, freed := map[], {};
      new;
      forall slot ensures SlotOk(slot) {
        NothingPending(pending, slot);
      }
    }

    /** A new object, with a slot that the allocator has handed out, is put into a pending list. */
    method OnNewSdarcAllocated(k: nat, f: Fat)
      requires Valid() && k < |pending|
      requires f.slot !in live && f.obj !in freed && f.obj !in live.Values
      modifies this`pending, this`live
      ensures Valid() && live == old(live)[f.slot := f.obj]
      ensures pending == old(pending)[k := old(pending)[k] + [f]]
    {
      forall slot ensures TimesIn(pending[k := pending[k] + [f]], slot)
                       == TimesIn(pending, slot) + if slot == f.slot then 1 else 0 {
        TimesInUpdate(pending, k, pending[k] + [f], slot);
        assert (pending[k] + [f])[..|pending[k]|] == pending[k];
      }
      forall slot ensures old(SlotOk(slot)) {}
      pending := pending[k := pending[k] + [f]];
      live := live[f.slot := f.obj];
      forall slot ensures SlotOk(slot) {
        assert old(SlotOk(slot));
      }
    }

    /** Other threads, or a destructor on this one, create objects in slots that are not live. */
    method Interfere()
      requires Valid()
      modifies this`pending, this`live
      ensures Valid() && Appended(old(pending), pending) && Includes(live, old(live))
    {
      var steps: int := *;
      for i := 0 to if steps < 0 then 0 else steps
        invariant Valid() && Appended(old(pending), pending) && Includes(live, old(live))
      {
        var k: nat := *;
        var f: Fat := *;
        if k < |pending| && f.slot !in live && f.obj !in freed && f.obj !in live.Values {
          AppendOne(old(pending), pending, k, f);
          OnNewSdarcAllocated(k, f);
        }
      }
    }

    /** Takes over what one pending list holds; its lock is held meanwhile. */
    method TakeShard(k: nat)
      requires Valid() && taken == [] && k < |pending|
      modifies this`pending, this`taken
      ensures Valid() && taken == old(pending)[k] && pending == old(pending)[k := []]
    {
      forall slot ensures TimesIn(pending[k := []], slot) == TimesIn(pending, slot) - Times(pending[k], slot) {
        TimesInUpdate(pending, k, [], slot);
      }
      forall slot ensures old(SlotOk(slot)) {}
      taken := pending[k];
      pending := pending[k := []];
      forall slot ensures SlotOk(slot) {
        assert old(SlotOk(slot));
      }
    }

    /** Starts tracking the first object taken; the assertion that no key is replaced holds. */
    method TrackOne() returns (replaced: Option<TrackedCounter>)
      requires Valid() && taken != []
      modifies this`taken, this`tracked
      ensures Valid() && replaced.None? && taken == old(taken)[1..] && old(taken)[0].slot !in old(tracked)
      ensures tracked == old(tracked)[old(taken)[0].slot := TrackedCounter(old(taken)[0], DefaultState)]
    {
      var f := taken[0];
      forall slot ensures Times(taken, slot) == Times(taken[1..], slot) + if f.slot == slot then 1 else 0 {
        TimesHead(taken, slot);
      }
      assert SlotOk(f.slot);
      forall slot ensures old(SlotOk(slot)) {}
      replaced := if f.slot in tracked then Some(tracked[f.slot]) else None;
      tracked := tracked[f.slot := TrackedCounter(f, DefaultState)];
      taken := taken[1..];
      forall slot ensures SlotOk(slot) {
        assert old(SlotOk(slot));
      }
    }

    /** Tracks everything taken out of one pending list, while others go on adding to the lists. */
    method TrackTaken()
      requires Valid()
      modifies this`pending, this`live, this`taken, this`tracked
      ensures Valid() && taken == [] && Appended(old(pending), pending)
      ensures Includes(live, old(live)) && Keeps(tracked, old(tracked)) && AllTracked(old(taken), tracked)
    {
      ghost var mine, done := taken, 0;
      while taken != []
        invariant Valid() && Appended(old(pending), pending)
        invariant Includes(live, old(live)) && Keeps(tracked, old(tracked))
        invariant done <= |mine| && taken == mine[done..] && AllTracked(mine[..done], tracked)
        decreases |taken|
      {
        ghost var p := pending;
        Interfere();
        AppendedTransitive(old(pending), p, pending);
        var replaced := TrackOne();
        assert mine[..done + 1] == mine[..done] + [mine[done]];
        done := done + 1;
      }
      assert mine[..done] == mine;
    }

    /**
     Moves everything pending into the map, while others go on adding to the lists. What was
     pending at the start is tracked at the end.
     */
    method TakeNewCountersToTrack()
      requires Valid() && taken == []
      modifies this`pending, this`live, this`taken, this`tracked
      ensures Valid() && taken == [] && |pending| == |old(pending)|
      ensures Includes(live, old(live)) && Keeps(tracked, old(tracked))
      ensures forall k :: 0 <= k < |old(pending)| ==> AllTracked(old(pending)[k], tracked)
    {
      for k := 0 to |pending|
        invariant Valid() && taken == [] && |pending| == |old(pending)|
        invariant Includes(live, old(live)) && Keeps(tracked, old(tracked))
        invariant forall j :: 0 <= j < k ==> AllTracked(old(pending)[j], tracked)
        invariant forall j :: k <= j < |pending| ==> old(pending)[j] <= pending[j]
      {
        TakeShard(k);
        TrackTaken();
      }
    }

    /** One pass over the given keys; `decide` is what the update of each entry comes to. */
    method UpdateCounters(keys: set<nat>, decide: map<nat, TrackedState>) returns (toFree: seq<nat>)
      requires Valid() && forall slot :: slot in tracked ==> !tracked[slot].state.ReadyToFree?
      modifies this`pending, this`live, this`tracked
      ensures Valid() && |pending| == |old(pending)| && Includes(live, old(live))
      ensures tracked == Decided(old(tracked), keys, decide)
      ensures Distinct(toFree) && IsReadyList(tracked, toFree)
    {
      toFree := [];
      var todo := keys;
      ghost var done := {};
      DecidedNone(tracked, decide);
      while todo != {}
        invariant Valid() && |pending| == |old(pending)| && Includes(live, old(live))
        invariant done + todo == keys && done !! todo && tracked == Decided(old(tracked), done, decide)
        invariant Distinct(toFree) && IsReadyList(tracked, toFree)
        invariant forall slot :: slot in todo ==> slot !in toFree
      {
        var slot :| slot in todo;
        DecidedOne(old(tracked), done, decide, slot);
        toFree := UpdateOne(slot, decide, toFree);
        todo, done := todo - {slot}, done + {slot};
      }
    }

    method UpdateOne(slot: nat, decide: map<nat, TrackedState>, toFree: seq<nat>) returns (more: seq<nat>)
      requires Valid() && Distinct(toFree) && IsReadyList(tracked, toFree) && slot !in toFree
      modifies this`pending, this`live, this`tracked
      ensures Valid() && |pending| == |old(pending)| && Includes(live, old(live))
      ensures tracked == if slot in old(tracked) && slot in decide
                         then old(tracked)[slot := old(tracked)[slot].(state := decide[slot])] else old(tracked)
      ensures Distinct(more) && IsReadyList(tracked, more) && forall x :: x in more ==> x in toFree || x == slot
    {
      Interfere();
      more := toFree;
      if slot in tracked && slot in decide {
        SetState(slot, decide[slot]);
        if decide[slot].ReadyToFree? {
          more := more + [slot];
        }
      }
    }

    method SetState(slot: nat, state: TrackedState)
      requires Valid() && slot in tracked
      modifies this`tracked
      ensures Valid() && tracked == old(tracked)[slot := old(tracked)[slot].(state := state)]
    {
      forall s ensures old(SlotOk(s)) {}
      tracked := tracked[slot := tracked[slot].(state := state)];
      forall s ensures SlotOk(s) {
        assert old(SlotOk(s));
      }
    }

    /** Takes an object off the books; the assertions about the removed entry hold. */
    method Untrack(slot: nat) returns (removed: Option<TrackedCounter>)
      requires Valid() && freeing.None? && slot in tracked && tracked[slot].state.ReadyToFree?
      modifies this`tracked, this`freeing
      ensures Valid() && tracked == old(tracked) - {slot} && freeing == Some(old(tracked)[slot].fat)
      ensures removed == Some(old(tracked)[slot]) && removed.value.state.ReadyToFree? && removed.value.fat.slot == slot
    {
      forall s ensures old(SlotOk(s)) {}
      removed := Some(tracked[slot]);
      freeing := Some(tracked[slot].fat);
      tracked := tracked - {slot};
      forall s ensures SlotOk(s) {
        assert old(SlotOk(s));
      }
    }

    /** The slot is deallocated, and can be handed out again at once; the object has not been freed before. */
    method Deallocate()
      requires Valid() && freeing.Some?
      modifies this`freeing, this`live, this`freed
      ensures Valid() && freeing.None? && old(freeing.value.obj) !in old(freed)
      ensures live == old(live) - {old(freeing.value.slot)} && freed == old(freed) + {old(freeing.value.obj)}
    {
      var f := freeing.value;
      assert SlotOk(f.slot) && Known(f);
      forall s ensures old(SlotOk(s)) {}
      forall i | 0 <= i < |taken| ensures taken[i].slot != f.slot {
        TimesAt(taken, i);
      }
      forall k, i | 0 <= k < |pending| && 0 <= i < |pending[k]| ensures pending[k][i].slot != f.slot {
        TimesAt(pending[k], i);
        TimesInUpdate(pending, k, [], f.slot);
      }
      freeing := None;
      live := live - {f.slot};
      freed := freed + {f.obj};
      forall s ensures SlotOk(s) {
        assert old(SlotOk(s));
      }
    }

    /** Frees one object; its destructor may create objects, before and after its slot is given back. */
    method FreeOne(slot: nat)
      requires Valid() && freeing.None? && slot in tracked && tracked[slot].state.ReadyToFree?
      modifies this
      ensures Valid() && freeing.None? && |pending| == |old(pending)| && taken == old(taken)
      ensures tracked == old(tracked) - {slot}
      ensures old(tracked)[slot].fat.obj !in old(freed) && freed == old(freed) + {old(tracked)[slot].fat.obj}
    {
      var removed := Untrack(slot);
      Interfere();
      Deallocate();
      Interfere();
    }

    /**
     Frees every entry of the list, each exactly once, although destructors create objects that
     may use the slots of objects freed a moment before.
     */
    method FreePointers(toFree: seq<nat>)
      requires Valid() && freeing.None? && Distinct(toFree)
      requires forall slot :: slot in toFree ==> slot in tracked && tracked[slot].state.ReadyToFree?
      modifies this
      ensures Valid() && freeing.None? && |pending| == |old(pending)| && taken == old(taken)
      ensures tracked == old(tracked) - Named(toFree, |toFree|)
      ensures freed == old(freed) + ObjectsOf(old(tracked), toFree, |toFree|)
    {
      ghost var t0 := tracked;
      for i := 0 to |toFree|
        invariant Valid() && freeing.None? && |pending| == |old(pending)| && taken == old(taken)
        invariant tracked == t0 - Named(toFree, i)
        invariant freed == old(freed) + ObjectsOf(t0, toFree, i)
      {
        FreeStep(t0, toFree, i);
        FreeOne(toFree[i]);
      }
    }
  }

  /** The first `n` slots of a list. */
  ghost function Named(list: seq<nat>, n: nat): set<nat>
    requires n <= |list|
  {
    if n == 0 then {} else Named(list, n - 1) + {list[n - 1]}
  }

  ghost function ObjectsOf(tracked: map<nat, TrackedCounter>, list: seq<nat>, n: nat): set<nat>
    requires n <= |list|
  {
    if n == 0 then {}
    else ObjectsOf(tracked, list, n - 1) + if list[n - 1] in tracked then {tracked[list[n - 1]].fat.obj} else {}
  }

  lemma {:induction false} NotNamedYet(list: seq<nat>, n: nat, i: nat)
    requires Distinct(list) && n <= i < |list|
    ensures list[i] !in Named(list, n)
  {
    if n > 0 {
      NotNamedYet(list, n - 1, i);
    }
  }

  /** The entries after an update of the keys that are tracked. */
  ghost function Decided(tracked: map<nat, TrackedCounter>, keys: set<nat>, decide: map<nat, TrackedState>): map<nat, TrackedCounter> {
    map slot | slot in tracked ::
      if slot in keys && slot in decide then tracked[slot].(state := decide[slot]) else tracked[slot]
  }

  lemma DecidedNone(tracked: map<nat, TrackedCounter>, decide: map<nat, TrackedState>)
    ensures Decided(tracked, {}, decide) == tracked
  {
  }

  lemma DecidedOne(tracked: map<nat, TrackedCounter>, keys: set<nat>, decide: map<nat, TrackedState>, slot: nat)
    requires slot !in keys
    ensures Decided(tracked, keys + {slot}, decide) ==
      if slot in tracked && slot in decide
      then Decided(tracked, keys, decide)[slot := tracked[slot].(state := decide[slot])] else Decided(tracked, keys, decide)
    ensures slot in tracked ==> Decided(tracked, keys, decide)[slot] == tracked[slot]
  {
  }

  lemma FreeStep(tracked: map<nat, TrackedCounter>, list: seq<nat>, i: nat)
    requires Distinct(list) && i < |list| && list[i] in tracked
    ensures list[i] in tracked - Named(list, i)
    ensures (tracked - Named(list, i))[list[i]] == tracked[list[i]]
    ensures tracked - Named(list, i) - {list[i]} == tracked - Named(list, i + 1)
    ensures ObjectsOf(tracked, list, i + 1) == ObjectsOf(tracked, list, i) + {tracked[list[i]].fat.obj}
  {
    NotNamedYet(list, i, i);
  }

  lemma AppendedTransitive(a: seq<seq<Fat>>, b: seq<seq<Fat>>, c: seq<seq<Fat>>)
    requires Appended(a, b) && Appended(b, c)
    ensures Appended(a, c)
  {
    forall k | 0 <= k < |c| ensures a[k] <= c[k] {
      assert a[k] <= b[k] <= c[k];
    }
  }

  lemma AppendOne(before: seq<seq<Fat>>, now: seq<seq<Fat>>, k: nat, f: Fat)
    requires Appended(before, now) && k < |now|
    ensures Appended(before, now[k := now[k] + [f]])
  {
    assert before[k] <= now[k];
  }

  lemma {:induction false} TimesAt(list: seq<Fat>, i: nat)
    requires i < |list|
    ensures Times(list, list[i].slot) > 0
  {
    if i < |list| - 1 {
      TimesAt(list[..|list| - 1], i);
    }
  }

  predicate Lists(list: seq<Fat>, slot: nat) { exists i :: 0 <= i < |list| && list[i].slot == slot }

  lemma {:induction false} TimesMeans(list: seq<Fat>, slot: nat)
    ensures Times(list, slot) > 0 <==> Lists(list, slot)
  {
    if list != [] {
      var n := |list| - 1;
      TimesMeans(list[..n], slot);
      if Lists(list[..n], slot) {
        var i :| 0 <= i < n && list[..n][i].slot == slot;
        assert list[i].slot == slot;
      }
      if Lists(list, slot) && list[n].slot != slot {
        var i :| 0 <= i <= n && list[i].slot == slot;
        assert list[..n][i].slot == slot;
      }
    }
  }

  lemma {:induction false} TimesInMeans(shards: seq<seq<Fat>>, slot: nat)
    ensures TimesIn(shards, slot) > 0 <==> exists k :: 0 <= k < |shards| && Lists(shards[k], slot)
  {
    if shards != [] {
      var n := |shards| - 1;
      TimesInMeans(shards[..n], slot);
      TimesMeans(shards[n], slot);
      if k :| 0 <= k < n && Lists(shards[k], slot) {
        assert Lists(shards[..n][k], slot);
      }
      if k :| 0 <= k < n && Lists(shards[..n][k], slot) {
        assert Lists(shards[k], slot);
      }
    }
  }

  /** Between passes the pending and the tracked slots are disjoint, and together they are the live ones. */
  lemma LiveSlotsAreBooked(c: CollectorThreadState, slot: nat)
    requires c.Valid() && c.taken == [] && c.freeing.None?
    ensures slot in c.live <==> slot in c.tracked || exists k :: 0 <= k < |c.pending| && Lists(c.pending[k], slot)
    ensures slot in c.tracked ==> forall k :: 0 <= k < |c.pending| ==> !Lists(c.pending[k], slot)
    ensures TimesIn(c.pending, slot) <= 1
  {
    assert c.SlotOk(slot);
    TimesInMeans(c.pending, slot);
  }

  ghost predicate Includes(now: map<nat, nat>, before: map<nat, nat>) {
    forall slot :: slot in before ==> slot in now && now[slot] == before[slot]
  }

  ghost predicate Keeps(now: map<nat, TrackedCounter>, before: map<nat, TrackedCounter>) {
    forall slot :: slot in before ==> slot in now && now[slot] == before[slot]
  }

  ghost predicate Appended(before: seq<seq<Fat>>, now: seq<seq<Fat>>) {
    |before| == |now| && forall k :: 0 <= k < |now| ==> before[k] <= now[k]
  }

  ghost predicate AllTracked(list: seq<Fat>, tracked: map<nat, TrackedCounter>) {
    forall i :: 0 <= i < |list| ==> list[i].slot in tracked
  }

  /** The list names exactly the entries that are ready to be freed. */
  ghost predicate IsReadyList(tracked: map<nat, TrackedCounter>, list: seq<nat>) {
    forall slot :: slot in list <==> slot in tracked && tracked[slot].state.ReadyToFree?
  }

  ghost predicate Distinct(list: seq<nat>) {
    forall i, j :: 0 <= i < j < |list| ==> list[i] != list[j]
  }
}
