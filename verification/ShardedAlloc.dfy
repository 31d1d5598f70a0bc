/** The allocator's code, with other threads at work between any two of its accesses. */
module ShardedAlloc {
  import opened Options
  import opened SlotAlloc
  import opened SlotMaintenance

  class FullShardAlloc {
    const quiescent: bool
    var a: Alloc
    ghost var live: set<Slot>   // slots handed out and not yet deallocated

    /** The candidates of the temporary group may be out of date while maintenance is at work on it. */
    ghost predicate Valid()
      reads this
    {
      Inv(a) && live == Used(a)
    }

    constructor (shards: nat, quiescent: bool)
      ensures Valid() && CandidatesOk(a.temp)
      ensures live == {} && |a.groups| == shards && this.quiescent == quiescent
    {
      a := Alloc(map[], seq(shards, _ => Group([], [])), Group([], []));
      live := {};
      this.quiescent := quiescent;
      new;
      forall b ensures ListedOnce(a, b) {
        NothingListed(a.groups, b);
      }
    }

    /** One atomic access or lock-protected update, by this thread. */
    method Do(op: AllocOp)
      requires Valid() && Ok(a, op)
      modifies this
      ensures Valid() && a == Apply(old(a), op) && live == LiveAfter(old(live), old(a), op)
      ensures |a.groups| == |old(a.groups)|
    {
      KeepsInv(a, op);
      Refines(a, op);
      live := LiveAfter(live, a, op);
      a := Apply(a, op);
    }

    /**
     Other threads take any number of steps. They do not touch the group that this thread has to
     itself, and deallocate only slots that are theirs.
     */
    method Interfere(w: Option<Which>, mine: set<Slot>)
      requires Valid() && (w.Some? ==> Exists(a, w.value))
      modifies this
      ensures Valid() && |a.groups| == |old(a.groups)|
      ensures w.Some? ==> Stable(old(a), a, w.value)
      ensures forall s :: s in mine && s in old(live) ==> s in live
      ensures quiescent ==> a == old(a) && live == old(live)
    {
      if w.Some? {
        StableReflexive(a, w.value);
      }
      if !quiescent {
        var steps: int := *;
        for i := 0 to if steps < 0 then 0 else steps
          invariant Valid() && |a.groups| == |old(a.groups)|
          invariant w.Some? ==> Stable(old(a), a, w.value)
          invariant forall s :: s in mine && s in old(live) ==> s in live
        {
          var op: AllocOp := *;
          if Ok(a, op) && (w.Some? ==> !Touches(op, w.value)) && (op.Clear? ==> op.s !in mine) {
            if w.Some? {
              OtherIsStable(a, op, w.value);
              StableTransitive(old(a), a, Apply(a, op), w.value);
            }
            Do(op);
          }
        }
      }
    }

    // ----- allocation, with the lock of group `k` held

    /** Others act, then the usage flag of a slot is swapped with 1. */
    method SwapFlag(k: nat, pos: nat, i: nat) returns (used: bool, ghost before: set<Slot>)
      requires Valid() && k < |a.groups| && pos < |a.groups[k].units| && i < SLOTS
      modifies this
      ensures Valid() && |a.groups| == |old(a.groups)| && a.groups[k] == old(a.groups[k])
      ensures !used ==> Slot(a.groups[k].units[pos], i) !in before
      ensures live == if used then before else before + {Slot(a.groups[k].units[pos], i)}
      ensures quiescent ==> before == old(live) && used == IsUsed(old(a), Slot(old(a.groups[k].units[pos]), i))
      ensures quiescent ==> if used then a == old(a) else Ok(old(a), Claim(k, pos, i)) && a == Apply(old(a), Claim(k, pos, i))
    {
      Interfere(Some(Shard(k)), {});
      GroupUnit(a, Shard(k), a.groups[k].units[pos]);
      before := live;
      used := a.flags[a.groups[k].units[pos]][i];
      if !used {
        Refines(a, Claim(k, pos, i));
        Do(Claim(k, pos, i));
      }
    }

    method AllocateInUnit(k: nat, pos: nat) returns (r: Option<nat>, ghost before: set<Slot>)
      requires Valid() && k < |a.groups| && pos < |a.groups[k].units|
      modifies this
      ensures Valid() && |a.groups| == |old(a.groups)| && a.groups[k] == old(a.groups[k])
      ensures r.Some? ==> r.value < SLOTS && Slot(a.groups[k].units[pos], r.value) !in before
      ensures r.Some? ==> live == before + {Slot(a.groups[k].units[pos], r.value)}
      ensures quiescent ==> before == old(live)
      ensures quiescent ==> r == FreeSlotOf(old(a), old(a.groups[k].units[pos]))
      ensures quiescent && r.None? ==> a == old(a)
      ensures quiescent && r.Some? ==> Ok(old(a), Claim(k, pos, r.value)) && a == Apply(old(a), Claim(k, pos, r.value))
    {
      ghost var b := a.groups[k].units[pos];
      before := live;
      GroupUnit(a, Shard(k), b);
      for i := 0 to SLOTS
        invariant Valid() && |a.groups| == |old(a.groups)| && a.groups[k] == old(a.groups[k])
        invariant quiescent ==> a == old(a) && before == live && live == old(live)
        invariant quiescent ==> FreeSlotOf(old(a), b) == FirstFree(old(a.flags)[b], i)
      {
        var used;
        used, before := SwapFlag(k, pos, i);
        if !used {
          return Some(i), before;
        }
      }
      return None, before;
    }

    /**
     Hands out a slot that was not live at the moment `before` when it was claimed. With no other
     thread active, it is the first free slot of the first candidate that has one, and a new unit
     is made only when no candidate has one.
     */
    method Allocate(k: nat) returns (s: Slot, ghost before: set<Slot>)
      requires Valid() && k < |a.groups|
      modifies this
      ensures Valid() && |a.groups| == |old(a.groups)|
      ensures s !in before && live == before + {s} && s.index < SLOTS && s.unit in a.groups[k].units
      ensures quiescent ==> before == old(live) && Allocated(old(a), k, s, a)
    {
      before := live;
      ghost var g := a.groups[k];
      assert CandidatesOk(g);
      while true
        invariant Valid() && |a.groups| == |old(a.groups)| && a.groups[k].units == g.units
        invariant quiescent ==> live == old(live) && a == WithCandidates(old(a), k, a.groups[k].candidates)
        invariant quiescent ==> Searched(old(a), k, g.candidates) == Searched(old(a), k, a.groups[k].candidates)
        decreases |a.groups[k].candidates|
      {
        var c := a.groups[k].candidates;
        assert CandidatesOk(a.groups[k]);
        if c == [] {
          Interfere(Some(Shard(k)), {});
          SomeFreshBlock(a);
          var base :| FreshBlock(a, base);
          before := live;
          Refines(a, AddUnit(k, base));
          Do(AddUnit(k, base));
          return Slot(base, 0), before;
        }
        ghost var a1 := a;
        var r;
        r, before := AllocateInUnit(k, c[0]);
        if r.Some? {
          return Slot(a.groups[k].units[c[0]], r.value), before;
        }
        SwapRemoveKeeps(a.groups[k], c);
        Do(SetCandidates(Shard(k), SwapRemoveFirst(c)));
      }
    }

    /** Only the usage flag changes. The flag was set, so the assertion in the code holds. */
    method DeallocateWithoutDropping(s: Slot) returns (originalUsage: bool, ghost before: set<Slot>)
      requires Valid() && s in live
      modifies this
      ensures Valid() && originalUsage && s in before && live == before - {s}
      ensures quiescent ==> before == old(live)
    {
      Interfere(None, {s});
      assert IsUsed(a, s);
      before := live;
      originalUsage := a.flags[s.unit][s.index];
      Do(Clear(s));
    }

    // ----- maintenance of the temporary group, which no other thread touches

    method IsAnySlotUsed(pos: nat, mine: set<Slot>) returns (used: bool)
      requires Valid() && pos < |a.temp.units|
      modifies this
      ensures Valid() && Stable(old(a), a, Temp)
      ensures forall s :: s in mine && s in old(live) ==> s in live
      ensures used ==> UsedUnit(old(a), a.temp.units[pos])
      ensures !used ==> !UsedUnit(a, a.temp.units[pos])
      ensures quiescent ==> a == old(a)
    {
      ghost var b := a.temp.units[pos];
      StableReflexive(a, Temp);
      GroupUnit(a, Temp, b);
      for i := 0 to SLOTS
        invariant Valid() && Stable(old(a), a, Temp)
        invariant forall s :: s in mine && s in old(live) ==> s in live
        invariant b in a.flags && |a.flags[b]| == SLOTS && forall j :: 0 <= j < i ==> !a.flags[b][j]
        invariant quiescent ==> a == old(a)
      {
        ghost var a1 := a;
        Interfere(Some(Temp), mine);
        StableTransitive(old(a), a1, a, Temp);
        assert OnlyCleared(a1, a, b) && OnlyCleared(old(a), a, b);
        if a.flags[a.temp.units[pos]][i] {
          return true;
        }
      }
      return false;
    }

    method HasAnyFreeSlot(pos: nat, mine: set<Slot>) returns (free: bool)
      requires Valid() && pos < |a.temp.units|
      modifies this
      ensures Valid() && Stable(old(a), a, Temp)
      ensures forall s :: s in mine && s in old(live) ==> s in live
      ensures free ==> FreeUnit(a, a.temp.units[pos])
      ensures !free ==> !FreeUnit(old(a), a.temp.units[pos])
      ensures quiescent ==> a == old(a)
    {
      ghost var b := a.temp.units[pos];
      StableReflexive(a, Temp);
      GroupUnit(a, Temp, b);
      for i := 0 to SLOTS
        invariant Valid() && Stable(old(a), a, Temp)
        invariant forall s :: s in mine && s in old(live) ==> s in live
        invariant b in a.flags && |a.flags[b]| == SLOTS && forall j :: 0 <= j < i ==> old(a.flags)[b][j]
        invariant quiescent ==> a == old(a)
      {
        ghost var a1 := a;
        Interfere(Some(Temp), mine);
        StableTransitive(old(a), a1, a, Temp);
        assert OnlyCleared(a1, a, b) && OnlyCleared(old(a), a, b);
        if !a.flags[a.temp.units[pos]][i] {
          return true;
        }
      }
      return false;
    }

    /** Drops the units found empty; the assertion that a dropped unit is empty holds. */
    method RetainUsed(mine: set<Slot>)
      requires Valid()
      modifies this
      ensures Valid() && Retaining(old(a), a, |a.temp.units|)
      ensures forall s :: s in mine && s in old(live) ==> s in live
      ensures forall s :: s in mine && s in old(live) && s.unit in old(a.temp.units) ==> s.unit in a.temp.units
      ensures quiescent ==> a.groups == old(a.groups) && live == old(live) && SameUse(old(a), a)
      ensures quiescent ==> a.temp.units == Kept(old(a), old(a.temp.units))
    {
      var i := 0;
      ghost var a0, units, done := a, a.temp.units, 0;
      RetainStarts(a);
      while i < |a.temp.units|
        invariant Valid() && Retaining(a0, a, i)
        invariant forall s :: s in mine && s in old(live) ==> s in live
        invariant forall s :: s in mine && s in old(live) && s.unit in units ==> s.unit in a.temp.units
        invariant quiescent ==> a.groups == a0.groups && live == old(live) && SameUse(a0, a)
        invariant quiescent ==> RetainedExactly(a0, units, done, a.temp.units, i)
        decreases |a.temp.units| - i
      {
        ghost var a1 := a;
        if quiescent {
          RetainedStep(a0, units, done, a.temp.units, i);
        }
        var used := IsAnySlotUsed(i, mine);
        if used {
          RetainUsedOne(a0, a1, a, i);
          i := i + 1;
        } else {
          RetainScan(a0, a1, a, i);
          RetainPrune(a0, a, i);
          PruneSparesAll(a, i);
          if quiescent {
            PruneSameUse(a0, a, i);
          }
          Do(Prune(i));
        }
        done := done + 1;
      }
      if quiescent {
        RetainedEnds(a0, units, done, a.temp.units);
      }
    }

    method ListCandidates(mine: set<Slot>)
      requires Valid()
      modifies this
      ensures Valid() && Listing(old(a), a, |a.temp.units|)
      ensures forall s :: s in mine && s in old(live) ==> s in live
      ensures quiescent ==> live == old(live)
      ensures quiescent ==> a == old(a).(temp := Group(a.temp.units, FreePositions(old(a), a.temp.units, |a.temp.units|)))
    {
      ghost var a0 := a;
      ListStarts(a);
      Do(SetCandidates(Temp, []));
      for i := 0 to |a.temp.units|
        invariant Valid() && Listing(a0, a, i)
        invariant forall s :: s in mine && s in old(live) ==> s in live
        invariant quiescent ==> live == old(live)
        invariant quiescent ==> a == a0.(temp := Group(a0.temp.units, FreePositions(a0, a0.temp.units, i)))
      {
        ghost var a1 := a;
        var free := HasAnyFreeSlot(i, mine);
        ListOne(a0, a1, a, i, free);
        if free {
          Do(SetCandidates(Temp, a.temp.candidates + [i]));
        }
      }
    }

    /** Maintenance of the temporary group; other threads deallocate slots of its units meanwhile. */
    method DoMaintenance(mine: set<Slot>)
      requires Valid()
      modifies this
      ensures Valid() && CandidatesOk(a.temp) && |a.groups| == |old(a.groups)| && Maintained(old(a), a)
      ensures forall s :: s in mine && s in old(live) ==> s in live
      ensures forall s :: s in mine && s in old(live) && s.unit in old(a.temp.units) ==> s.unit in a.temp.units
      ensures quiescent ==> a.groups == old(a.groups) && live == old(live) && SameUse(old(a), a)
      ensures quiescent ==> a.temp == MaintainedGroup(old(a), old(a.temp))
    {
      ghost var a0 := a;
      RetainUsed(mine);
      ghost var a1 := a;
      ListCandidates(mine);
      MaintainedBoth(a0, a1, a);
      if quiescent {
        forall b | b in a1.temp.units ensures UsedUnit(a0, b) {
          KeptExactly(a0, a0.temp.units, b);
        }
        SameFreePositions(a0, a1, a1.temp.units, |a1.temp.units|);
      }
    }

    /**
     Each group in turn is swapped with the temporary one, maintained and swapped back. Other
     threads allocate from whatever the group holds at the time.
     */
    method DoMaintenanceByCollector(mine: set<Slot>)
      requires Valid() && CandidatesOk(a.temp)
      modifies this
      ensures Valid() && CandidatesOk(a.temp) && |a.groups| == |old(a.groups)|
      ensures forall s :: s in mine && s in old(live) ==> s in live
      ensures quiescent ==> live == old(live) && a.temp == MaintainedGroup(old(a), old(a.temp))
      ensures quiescent ==> forall k :: 0 <= k < |a.groups| ==> a.groups[k] == MaintainedGroup(old(a), old(a.groups)[k])
    {
      ghost var a0 := a;
      assert SameUse(a0, a);
      for k := 0 to |a.groups|
        invariant Valid() && CandidatesOk(a.temp) && |a.groups| == |a0.groups|
        invariant forall s :: s in mine && s in old(live) ==> s in live
        invariant quiescent ==> live == old(live) && SameUse(a0, a) && a.temp == a0.temp
        invariant quiescent ==> forall j :: 0 <= j < |a.groups| ==>
                    a.groups[j] == if j < k then MaintainedGroup(a0, a0.groups[j]) else a0.groups[j]
      {
        ghost var a1 := a;
        MaintainShard(k, mine);
        if quiescent {
          SameMaintained(a0, a1, a0.groups[k]);
        }
      }
      ghost var a1 := a;
      DoMaintenance(mine);
      if quiescent {
        SameMaintained(a0, a1, a0.temp);
      }
    }

    method MaintainShard(k: nat, mine: set<Slot>)
      requires Valid() && CandidatesOk(a.temp) && k < |a.groups|
      modifies this
      ensures Valid() && CandidatesOk(a.temp) && |a.groups| == |old(a.groups)|
      ensures forall s :: s in mine && s in old(live) ==> s in live
      ensures quiescent ==> live == old(live) && SameUse(old(a), a) && a.temp == old(a.temp)
      ensures quiescent ==> a.groups == old(a.groups)[k := MaintainedGroup(old(a), old(a.groups)[k])]
    {
      ghost var a0 := a;
      Interfere(Some(Temp), mine);
      Do(SwapTemp(k));
      ghost var a1 := a;
      DoMaintenance(mine);
      if quiescent {
        assert SameUse(a0, a1);
        SameMaintained(a0, a1, a0.groups[k]);
      }
      Interfere(Some(Temp), mine);
      Do(SwapTemp(k));
    }
  }
}
