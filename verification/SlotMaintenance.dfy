/** What allocation from a group and maintenance of a group come to. */
module SlotMaintenance {
  import opened Options
  import opened SlotAlloc

  predicate UsedUnit(a: Alloc, b: nat) { b in a.flags && AnyUsed(a.flags[b]) }

  predicate FreeUnit(a: Alloc, b: nat) { b in a.flags && AnyFree(a.flags[b]) }

  // ----- allocation

  /** The first slot, from the `i`th on, that is free. */
  function FirstFree(flags: seq<bool>, i: nat): (r: Option<nat>)
    requires i <= |flags|
    ensures r.Some? ==> i <= r.value < |flags| && !flags[r.value] && forall j :: i <= j < r.value ==> flags[j]
    ensures r.None? ==> forall j :: i <= j < |flags| ==> flags[j]
    decreases |flags| - i
  {
    if i == |flags| then None else if !flags[i] then Some(i) else FirstFree(flags, i + 1)
  }

  function FreeSlotOf(a: Alloc, b: nat): Option<nat> {
    if b in a.flags then FirstFree(a.flags[b], 0) else None
  }

  /** The first element goes, and the last one takes its place. */
  function SwapRemoveFirst(c: seq<nat>): seq<nat>
    requires c != []
  {
    if |c| == 1 then [] else [c[|c| - 1]] + c[1..|c| - 1]
  }

  lemma SwapRemoveAt(c: seq<nat>, i: nat)
    requires c != [] && i < |c| - 1
    ensures |SwapRemoveFirst(c)| == |c| - 1
    ensures SwapRemoveFirst(c)[i] == if i == 0 then c[|c| - 1] else c[i]
  {
  }

  lemma SwapRemoveMember(c: seq<nat>, p: nat)
    requires c != []
    ensures p in c <==> p == c[0] || p in SwapRemoveFirst(c)
  {
    if |c| > 1 {
      assert c == [c[0]] + c[1..|c| - 1] + [c[|c| - 1]];
    }
  }

  lemma SwapRemoveKeeps(g: Group, c: seq<nat>)
    requires c != [] && CandidatesOk(g.(candidates := c))
    ensures CandidatesOk(g.(candidates := SwapRemoveFirst(c)))
  {
    var r := SwapRemoveFirst(c);
    forall i | 0 <= i < |r| ensures r[i] < |g.units| {
      SwapRemoveAt(c, i);
    }
    forall i, j | 0 <= i < j < |r| ensures r[i] != r[j] {
      SwapRemoveAt(c, i);
      SwapRemoveAt(c, j);
    }
  }

  predicate FreeCandidate(a: Alloc, k: nat, p: nat) {
    k < |a.groups| && p < |a.groups[k].units| && FreeUnit(a, a.groups[k].units[p])
  }

  /** The candidates that are left when full ones have been taken off the front. */
  function Searched(a: Alloc, k: nat, c: seq<nat>): (r: seq<nat>)
    ensures r != [] ==> FreeCandidate(a, k, r[0]) && r[0] in c
    decreases |c|
  {
    if c == [] || FreeCandidate(a, k, c[0]) then c else Searched(a, k, SwapRemoveFirst(c))
  }

  function WithCandidates(a: Alloc, k: nat, c: seq<nat>): Alloc
    requires k < |a.groups|
  {
    a.(groups := a.groups[k := a.groups[k].(candidates := c)])
  }

  /** The search fails exactly when no candidate has a free slot. */
  lemma {:induction false} SearchFails(a: Alloc, k: nat, c: seq<nat>)
    ensures Searched(a, k, c) == [] <==> forall p :: p in c ==> !FreeCandidate(a, k, p)
    decreases |c|
  {
    if c != [] && !FreeCandidate(a, k, c[0]) {
      SearchFails(a, k, SwapRemoveFirst(c));
      forall p ensures p in c <==> p == c[0] || p in SwapRemoveFirst(c) {
        SwapRemoveMember(c, p);
      }
    }
  }

  /** An allocation from group `k` that no other thread interferes with. */
  ghost predicate Allocated(a: Alloc, k: nat, s: Slot, a': Alloc)
    requires k < |a.groups|
  {
    var c := Searched(a, k, a.groups[k].candidates);
    var a1 := WithCandidates(a, k, c);
    if c == [] then
      s.index == 0 && Ok(a1, AddUnit(k, s.unit)) && a' == Apply(a1, AddUnit(k, s.unit))
    else
      && c[0] < |a.groups[k].units| && s.unit == a.groups[k].units[c[0]]
      && FreeSlotOf(a, s.unit) == Some(s.index)
      && Ok(a1, Claim(k, c[0], s.index)) && a' == Apply(a1, Claim(k, c[0], s.index))
  }

  lemma {:induction false} NothingListed(groups: seq<Group>, b: nat)
    requires forall k :: 0 <= k < |groups| ==> groups[k] == Group([], [])
    ensures Listings(groups, b) == 0
  {
    if groups != [] {
      NothingListed(groups[..|groups| - 1], b);
    }
  }

  /** There is room for one block more, as memory is unbounded here. */
  lemma {:induction false} AddressAbove(blocks: set<nat>, len: nat) returns (base: nat)
    ensures base % 128 == 0 && forall b :: b in blocks ==> b + len <= base
    decreases blocks
  {
    if blocks == {} {
      base := 0;
    } else {
      var b :| b in blocks;
      var rest := AddressAbove(blocks - {b}, len);
      base := rest + 128 * (b + len);
      assert base % 128 == rest % 128;
      forall c | c in blocks ensures c + len <= base {
        assert c == b || c in blocks - {b};
      }
    }
  }

  lemma SomeFreshBlock(a: Alloc)
    ensures exists base :: FreshBlock(a, base)
  {
    var len := DataLenInBytes(|a.groups|);
    var base := AddressAbove(a.flags.Keys, len);
    assert len > 0;
    assert FreshBlock(a, base);
  }

  // ----- maintenance

  /** The units with a used slot, in order. */
  function Kept(a: Alloc, units: seq<nat>): seq<nat> {
    if units == [] then []
    else Kept(a, units[..|units| - 1]) + if UsedUnit(a, units[|units| - 1]) then [units[|units| - 1]] else []
  }

  /** The positions below `n` of the units with a free slot, in order. */
  function FreePositions(a: Alloc, units: seq<nat>, n: nat): seq<nat>
    requires n <= |units|
  {
    if n == 0 then [] else FreePositions(a, units, n - 1) + if FreeUnit(a, units[n - 1]) then [n - 1] else []
  }

  /** What maintenance makes of a group that no other thread uses meanwhile. */
  function MaintainedGroup(a: Alloc, g: Group): Group {
    var units := Kept(a, g.units);
    Group(units, FreePositions(a, units, |units|))
  }

  /** No unit of a maintained group is empty, and none with a used slot is missing. */
  lemma {:induction false} KeptExactly(a: Alloc, units: seq<nat>, b: nat)
    ensures b in Kept(a, units) <==> b in units && UsedUnit(a, b)
  {
    if units != [] {
      KeptExactly(a, units[..|units| - 1], b);
      assert units == units[..|units| - 1] + [units[|units| - 1]];
    }
  }

  /** Its candidates are exactly its units with a free slot. */
  lemma {:induction false} FreePositionsExactly(a: Alloc, units: seq<nat>, n: nat, p: nat)
    requires n <= |units|
    ensures p in FreePositions(a, units, n) <==> p < n && FreeUnit(a, units[p])
  {
    if n > 0 {
      FreePositionsExactly(a, units, n - 1, p);
    }
  }

  /** Units in use have the same flags, and no unit has come into use. */
  ghost predicate SameUse(a: Alloc, a': Alloc) {
    && (forall b :: UsedUnit(a, b) ==> b in a'.flags && a'.flags[b] == a.flags[b])
    && (forall b :: UsedUnit(a', b) ==> UsedUnit(a, b))
  }

  lemma {:induction false} SameKept(a: Alloc, a': Alloc, units: seq<nat>)
    requires SameUse(a, a')
    ensures Kept(a', units) == Kept(a, units)
  {
    if units != [] {
      SameKept(a, a', units[..|units| - 1]);
    }
  }

  lemma {:induction false} SameFreePositions(a: Alloc, a': Alloc, units: seq<nat>, n: nat)
    requires SameUse(a, a') && n <= |units| && forall b :: b in units ==> UsedUnit(a, b)
    ensures FreePositions(a', units, n) == FreePositions(a, units, n)
  {
    if n > 0 {
      assert units[n - 1] in units;
      SameFreePositions(a, a', units, n - 1);
    }
  }

  lemma SameMaintained(a: Alloc, a': Alloc, g: Group)
    requires SameUse(a, a')
    ensures MaintainedGroup(a', g) == MaintainedGroup(a, g)
  {
    var units := Kept(a, g.units);
    SameKept(a, a', g.units);
    forall b | b in units ensures UsedUnit(a, b) {
      KeptExactly(a, g.units, b);
    }
    SameFreePositions(a, a', units, |units|);
  }

  ghost predicate KeptUnit(a: Alloc, a': Alloc, b: nat) {
    b in a.temp.units && OnlyCleared(a, a', b) && UsedUnit(a, b)
  }

  ghost predicate Judged(a: Alloc, a': Alloc, p: nat)
    requires p < |a'.temp.units|
  {
    if p in a'.temp.candidates then FreeUnit(a', a'.temp.units[p]) else !FreeUnit(a, a'.temp.units[p])
  }

  /**
   What maintenance does to the temporary group while other threads deallocate: it keeps only
   units that were in use when it began, leaves out of the candidates only units that were full
   when it began, and lists only units that have a free slot when it ends.
   */
  ghost predicate Maintained(a: Alloc, a': Alloc) {
    && (forall b {:trigger KeptUnit(a, a', b)} :: b in a'.temp.units ==> KeptUnit(a, a', b))
    && (forall p {:trigger Judged(a, a', p)} :: 0 <= p < |a'.temp.units| ==> Judged(a, a', p))
  }

  // ----- the retaining loop

  lemma UsedBefore(a: Alloc, a': Alloc, b: nat)
    requires OnlyCleared(a, a', b) && UsedUnit(a', b)
    ensures UsedUnit(a, b)
  {
  }

  lemma FreeAfter(a: Alloc, a': Alloc, b: nat)
    requires OnlyCleared(a, a', b) && FreeUnit(a, b)
    ensures FreeUnit(a', b)
  {
    var i :| 0 <= i < |a.flags[b]| && !a.flags[b][i];
    assert !a'.flags[b][i];
  }

  ghost predicate Remains(a: Alloc, a': Alloc, b: nat) { b in a.temp.units && OnlyCleared(a, a', b) }

  /** The first `i` units have been found in use, and no unit is new. */
  ghost predicate Retaining(a: Alloc, a': Alloc, i: nat) {
    && |a'.groups| == |a.groups| && i <= |a'.temp.units|
    && (forall b {:trigger Remains(a, a', b)} :: b in a'.temp.units ==> Remains(a, a', b))
    && (forall p :: 0 <= p < i ==> UsedUnit(a, a'.temp.units[p]))
  }

  lemma RetainStarts(a: Alloc)
    requires Inv(a)
    ensures Retaining(a, a, 0)
  {
    forall b | b in a.temp.units ensures Remains(a, a, b) {
      GroupUnit(a, Temp, b);
    }
  }

  lemma RetainScan(a: Alloc, a1: Alloc, a2: Alloc, i: nat)
    requires Retaining(a, a1, i) && Stable(a1, a2, Temp)
    ensures Retaining(a, a2, i)
  {
    forall b | b in a2.temp.units ensures Remains(a, a2, b) {
      assert Remains(a, a1, b) && OnlyCleared(a1, a2, b);
    }
  }

  lemma RetainUsedOne(a: Alloc, a1: Alloc, a2: Alloc, i: nat)
    requires Retaining(a, a1, i) && Stable(a1, a2, Temp) && i < |a1.temp.units| && UsedUnit(a1, a1.temp.units[i])
    ensures Retaining(a, a2, i + 1)
  {
    RetainScan(a, a1, a2, i);
    assert Remains(a, a1, a1.temp.units[i]);
    UsedBefore(a, a1, a1.temp.units[i]);
  }

  lemma RetainPrune(a: Alloc, a1: Alloc, i: nat)
    requires Inv(a1) && Retaining(a, a1, i) && i < |a1.temp.units| && !UsedUnit(a1, a1.temp.units[i])
    ensures Ok(a1, Prune(i)) && Retaining(a, Apply(a1, Prune(i)), i)
  {
    GroupUnit(a1, Temp, a1.temp.units[i]);
    var a2 := Apply(a1, Prune(i));
    KeepsInv(a1, Prune(i));
    forall b | b in a2.temp.units ensures Remains(a, a2, b) {
      GroupUnit(a2, Temp, b);
      assert b in a1.temp.units && Remains(a, a1, b);
    }
  }

  /** Pruning an empty unit takes no slot in use with it. */
  lemma PruneSpares(a: Alloc, i: nat, s: Slot)
    requires Ok(a, Prune(i)) && s in Used(a) && s.unit in a.temp.units
    ensures s.unit in Apply(a, Prune(i)).temp.units
  {
    var p :| 0 <= p < |a.temp.units| && a.temp.units[p] == s.unit;
    assert p != i;
    assert RemoveAt(a.temp.units, i)[if p < i then p else p - 1] == s.unit;
  }

  lemma PruneSparesAll(a: Alloc, i: nat)
    requires Ok(a, Prune(i))
    ensures forall s :: s in Used(a) && s.unit in a.temp.units ==> s.unit in Apply(a, Prune(i)).temp.units
  {
    forall s | s in Used(a) && s.unit in a.temp.units ensures s.unit in Apply(a, Prune(i)).temp.units {
      PruneSpares(a, i, s);
    }
  }

  lemma PruneSameUse(a: Alloc, a1: Alloc, i: nat)
    requires SameUse(a, a1) && Ok(a1, Prune(i))
    ensures SameUse(a, Apply(a1, Prune(i)))
  {
  }

  /** `units[..done]` has been worked off, its used units make up the first `i` units. */
  ghost predicate RetainedExactly(a: Alloc, units: seq<nat>, done: nat, now: seq<nat>, i: nat) {
    done <= |units| && i <= |now| && now[..i] == Kept(a, units[..done]) && now[i..] == units[done..]
  }

  lemma RetainedStep(a: Alloc, units: seq<nat>, done: nat, now: seq<nat>, i: nat)
    requires RetainedExactly(a, units, done, now, i) && i < |now|
    ensures done < |units| && now[i] == units[done]
    ensures if UsedUnit(a, now[i]) then RetainedExactly(a, units, done + 1, now, i + 1)
            else RetainedExactly(a, units, done + 1, RemoveAt(now, i), i)
  {
    assert now[i] == now[i..][0];
    assert units[..done + 1][..done] == units[..done];
    assert units[done + 1..] == units[done..][1..] == now[i..][1..] == now[i + 1..];
    assert now[..i + 1] == now[..i] + [now[i]];
    assert RemoveAt(now, i)[..i] == now[..i] && RemoveAt(now, i)[i..] == now[i + 1..];
  }

  lemma RetainedEnds(a: Alloc, units: seq<nat>, done: nat, now: seq<nat>)
    requires RetainedExactly(a, units, done, now, |now|)
    ensures now == Kept(a, units)
  {
    assert now[..|now|] == now && units[..|units|] == units && |units[done..]| == 0;
  }

  // ----- the loop that lists the candidates

  /** The candidates below `i` are settled, and there are no others yet. */
  ghost predicate Listing(a: Alloc, a': Alloc, i: nat) {
    && |a'.groups| == |a.groups| && a'.temp.units == a.temp.units && i <= |a.temp.units|
    && CandidatesOk(a'.temp)
    && (forall c :: c in a'.temp.candidates ==> c < i)
    && (forall b {:trigger OnlyCleared(a, a', b)} :: b in a.temp.units ==> OnlyCleared(a, a', b))
    && (forall p {:trigger Judged(a, a', p)} :: 0 <= p < i ==> Judged(a, a', p))
  }

  lemma ListStarts(a: Alloc)
    requires Inv(a)
    ensures Listing(a, Apply(a, SetCandidates(Temp, [])), 0)
  {
    forall b | b in a.temp.units ensures OnlyCleared(a, Apply(a, SetCandidates(Temp, [])), b) {
      GroupUnit(a, Temp, b);
    }
  }

  lemma ListScan(a: Alloc, a1: Alloc, a2: Alloc, i: nat)
    requires Listing(a, a1, i) && Stable(a1, a2, Temp)
    ensures Listing(a, a2, i)
  {
    forall b | b in a.temp.units ensures OnlyCleared(a, a2, b) {
      assert OnlyCleared(a, a1, b) && OnlyCleared(a1, a2, b);
    }
    forall p | 0 <= p < i ensures Judged(a, a2, p) {
      assert Judged(a, a1, p);
      var b := a1.temp.units[p];
      assert OnlyCleared(a1, a2, b);
      if FreeUnit(a1, b) {
        FreeAfter(a1, a2, b);
      }
    }
  }

  /** Position `i` is judged: `free` was found by a scan from `a1` to `a2`. */
  lemma ListOne(a: Alloc, a1: Alloc, a2: Alloc, i: nat, free: bool)
    requires Listing(a, a1, i) && Stable(a1, a2, Temp) && i < |a.temp.units|
    requires if free then FreeUnit(a2, a.temp.units[i]) else !FreeUnit(a1, a.temp.units[i])
    ensures !free ==> Listing(a, a2, i + 1)
    ensures free ==> var op := SetCandidates(Temp, a2.temp.candidates + [i]);
                     Ok(a2, op) && Listing(a, Apply(a2, op), i + 1)
  {
    ListScan(a, a1, a2, i);
    var b := a.temp.units[i];
    assert OnlyCleared(a, a1, b);
    if FreeUnit(a, b) {
      FreeAfter(a, a1, b);
    }
    if free {
      var a3 := Apply(a2, SetCandidates(Temp, a2.temp.candidates + [i]));
      forall b | b in a.temp.units ensures OnlyCleared(a, a3, b) {
        assert OnlyCleared(a, a2, b);
      }
      forall p | 0 <= p < i + 1 ensures Judged(a, a3, p) {
        assert p < i ==> Judged(a, a2, p);
      }
    } else {
      assert Judged(a, a2, i);
    }
  }

  lemma MaintainedBoth(a: Alloc, a1: Alloc, a2: Alloc)
    requires Retaining(a, a1, |a1.temp.units|) && Listing(a1, a2, |a1.temp.units|)
    ensures Maintained(a, a2)
  {
    forall b | b in a2.temp.units ensures KeptUnit(a, a2, b) {
      assert Remains(a, a1, b) && OnlyCleared(a1, a2, b);
    }
    forall p | 0 <= p < |a2.temp.units| ensures Judged(a, a2, p) {
      assert Judged(a1, a2, p);
      var b := a2.temp.units[p];
      assert Remains(a, a1, b);
      if FreeUnit(a, b) {
        FreeAfter(a, a1, b);
      }
    }
  }

  /** A maintained group has no empty unit and lists exactly its units with a free slot. */
  lemma MaintainedGroupIsTight(a: Alloc, g: Group, p: nat)
    ensures var r := MaintainedGroup(a, g);
      && (forall b :: b in r.units <==> b in g.units && UsedUnit(a, b))
      && (p in r.candidates <==> p < |r.units| && FreeUnit(a, r.units[p]))
  {
    forall b ensures b in Kept(a, g.units) <==> b in g.units && UsedUnit(a, b) {
      KeptExactly(a, g.units, b);
    }
    var units := Kept(a, g.units);
    FreePositionsExactly(a, units, |units|, p);
  }

  /** Maintenance changes the order of nothing: it works on any split of the units. */
  lemma {:induction false} KeptInOrder(a: Alloc, us: seq<nat>, vs: seq<nat>)
    ensures Kept(a, us + vs) == Kept(a, us) + Kept(a, vs)
  {
    if vs == [] {
      assert us + vs == us;
    } else {
      var n := |vs| - 1;
      KeptInOrder(a, us, vs[..n]);
      assert (us + vs)[..|us + vs| - 1] == us + vs[..n];
    }
  }

  /** The candidates come out in ascending order, so none twice. */
  lemma {:induction false} FreePositionsAscend(a: Alloc, units: seq<nat>, n: nat)
    requires n <= |units|
    ensures forall i :: 0 <= i < |FreePositions(a, units, n)| ==> FreePositions(a, units, n)[i] < n
    ensures forall i, j :: 0 <= i < j < |FreePositions(a, units, n)| ==>
      FreePositions(a, units, n)[i] < FreePositions(a, units, n)[j]
  {
    if n > 0 {
      FreePositionsAscend(a, units, n - 1);
      var c := FreePositions(a, units, n - 1);
      assert FreePositions(a, units, n) == c || FreePositions(a, units, n) == c + [n - 1];
    }
  }

  // ----- successive allocations

  /** Every unit with a free slot is a candidate. */
  ghost predicate Complete(a: Alloc, k: nat) {
    k < |a.groups| && forall p :: FreeCandidate(a, k, p) ==> p in a.groups[k].candidates
  }

  lemma EmptyIsComplete(a: Alloc, k: nat)
    requires k < |a.groups| && a.groups[k].units == []
    ensures Complete(a, k)
  {
  }

  lemma MaintainedIsComplete(a: Alloc, k: nat)
    requires k < |a.groups| && a.groups[k].candidates == FreePositions(a, a.groups[k].units, |a.groups[k].units|)
    ensures Complete(a, k)
  {
    var g := a.groups[k];
    forall p | FreeCandidate(a, k, p) ensures p in g.candidates {
      FreePositionsExactly(a, g.units, |g.units|, p);
    }
  }

  /** The search throws out full units only. */
  lemma {:induction false} SearchKeeps(a: Alloc, k: nat, c: seq<nat>, p: nat)
    requires p in c && FreeCandidate(a, k, p)
    ensures p in Searched(a, k, c)
    decreases |c|
  {
    if !FreeCandidate(a, k, c[0]) {
      SwapRemoveMember(c, p);
      SearchKeeps(a, k, SwapRemoveFirst(c), p);
    }
  }

  lemma SearchedIsFree(a: Alloc, k: nat, p: nat)
    requires Complete(a, k) && FreeCandidate(a, k, p)
    ensures p in Searched(a, k, a.groups[k].candidates)
  {
    SearchKeeps(a, k, a.groups[k].candidates, p);
  }

  /** A new unit appears exactly if no unit of the group has a free slot. */
  lemma GrowsOnlyWhenFull(a: Alloc, k: nat, s: Slot, a': Alloc)
    requires Inv(a) && Complete(a, k) && Allocated(a, k, s, a')
    ensures s.unit !in a.groups[k].units <==> forall b :: b in a.groups[k].units ==> !FreeUnit(a, b)
  {
    var g := a.groups[k];
    var c := Searched(a, k, g.candidates);
    if c == [] {
      forall b | b in g.units ensures !FreeUnit(a, b) {
        var p :| 0 <= p < |g.units| && g.units[p] == b;
        if FreeCandidate(a, k, p) { SearchedIsFree(a, k, p); }
      }
      if s.unit in g.units {
        GroupUnit(a, Shard(k), s.unit);
      }
    }
  }

  /** An allocation leaves every unit with a free slot among the candidates, the new unit included. */
  lemma AllocatedKeepsComplete(a: Alloc, k: nat, s: Slot, a': Alloc)
    requires Inv(a) && Complete(a, k) && Allocated(a, k, s, a')
    ensures Complete(a', k)
  {
    var g, g' := a.groups[k], a'.groups[k];
    var c := Searched(a, k, g.candidates);
    forall p: nat | FreeCandidate(a', k, p) ensures p in g'.candidates {
      if p < |g.units| {
        GroupUnit(a, Shard(k), g.units[p]);
        assert FreeUnit(a, g.units[p]) by { FreeBefore(a, k, s, a', p); }
        SearchedIsFree(a, k, p);
      } else {
        assert g'.candidates == c + [|g.units|];
      }
    }
  }

  lemma FreeBefore(a: Alloc, k: nat, s: Slot, a': Alloc, p: nat)
    requires Inv(a) && k < |a.groups| && Allocated(a, k, s, a') && p < |a.groups[k].units|
    requires a.groups[k].units[p] in a.flags && FreeUnit(a', a.groups[k].units[p])
    ensures FreeUnit(a, a.groups[k].units[p])
  {
    var b := a.groups[k].units[p];
    var i :| 0 <= i < |a'.flags[b]| && !a'.flags[b][i];
    assert !a.flags[b][i];
  }

  lemma AllocatedKeepsInv(a: Alloc, k: nat, s: Slot, a': Alloc)
    requires Inv(a) && k < |a.groups| && Allocated(a, k, s, a')
    ensures Inv(a') && |a'.groups| == |a.groups|
  {
    var c := Searched(a, k, a.groups[k].candidates);
    var op := SetCandidates(Shard(k), c);
    SearchedOk(a.groups[k], a, k, a.groups[k].candidates);
    KeepsInv(a, op);
    assert Apply(a, op) == WithCandidates(a, k, c);
    if c == [] {
      KeepsInv(WithCandidates(a, k, c), AddUnit(k, s.unit));
    } else {
      KeepsInv(WithCandidates(a, k, c), Claim(k, c[0], s.index));
    }
  }

  lemma {:induction false} SearchedOk(g: Group, a: Alloc, k: nat, c: seq<nat>)
    requires CandidatesOk(g.(candidates := c))
    ensures CandidatesOk(g.(candidates := Searched(a, k, c)))
    decreases |c|
  {
    if c != [] && !FreeCandidate(a, k, c[0]) {
      SwapRemoveKeeps(g, c);
      SearchedOk(g, a, k, SwapRemoveFirst(c));
    }
  }

  ghost predicate AllocationAt(states: seq<Alloc>, slots: seq<Slot>, k: nat, i: nat)
    requires i < |slots| && i + 1 < |states|
  {
    k < |states[i].groups| && Allocated(states[i], k, slots[i], states[i + 1])
  }

  /** Undisturbed allocations from group `k`, one after the other. */
  ghost predicate Allocations(states: seq<Alloc>, slots: seq<Slot>, k: nat) {
    && |states| == |slots| + 1 && Inv(states[0]) && k < |states[0].groups|
    && forall i {:trigger AllocationAt(states, slots, k, i)} :: 0 <= i < |slots| ==> AllocationAt(states, slots, k, i)
  }

  lemma {:induction false} AllocationsKeep(states: seq<Alloc>, slots: seq<Slot>, k: nat, i: nat)
    requires Allocations(states, slots, k) && i < |states|
    ensures Inv(states[i]) && k < |states[i].groups|
    ensures Complete(states[0], k) ==> Complete(states[i], k)
  {
    if i > 0 {
      AllocationsKeep(states, slots, k, i - 1);
      assert AllocationAt(states, slots, k, i - 1);
      AllocatedKeepsInv(states[i - 1], k, slots[i - 1], states[i]);
      if Complete(states[0], k) {
        AllocatedKeepsComplete(states[i - 1], k, slots[i - 1], states[i]);
      }
    }
  }

  /**
   From an empty group, or one after maintenance, every allocation makes a new unit exactly if no
   unit of the group has a free slot at that time.
   */
  lemma EveryAllocationFills(states: seq<Alloc>, slots: seq<Slot>, k: nat, i: nat)
    requires Allocations(states, slots, k) && Complete(states[0], k) && i < |slots|
    ensures k < |states[i].groups|
    ensures slots[i].unit !in states[i].groups[k].units <==>
            forall b :: b in states[i].groups[k].units ==> !FreeUnit(states[i], b)
  {
    AllocationsKeep(states, slots, k, i);
    assert AllocationAt(states, slots, k, i);
    GrowsOnlyWhenFull(states[i], k, slots[i], states[i + 1]);
  }

  // ----- allocations from an empty group

  /** The slots of one unit are used up to some index. */
  ghost predicate UsedUpTo(a: Alloc, b: nat, m: nat) {
    b in a.flags && |a.flags[b]| == SLOTS && forall i :: 0 <= i < SLOTS ==> (a.flags[b][i] <==> i < m)
  }

  /** `m` slots of the last unit are used, those of all others, and the last one is the only candidate. */
  ghost predicate Filled(a: Alloc, k: nat, full: nat, m: nat) {
    && k < |a.groups| && 0 < m <= SLOTS && |a.groups[k].units| == full + 1 && a.groups[k].candidates == [full]
    && forall p :: 0 <= p <= full ==> UsedUpTo(a, a.groups[k].units[p], if p < full then SLOTS else m)
  }

  lemma UsedUpToFree(a: Alloc, b: nat, m: nat)
    requires UsedUpTo(a, b, m) && m <= SLOTS
    ensures FreeUnit(a, b) <==> m < SLOTS
    ensures m < SLOTS ==> FreeSlotOf(a, b) == Some(m)
  {
    if m < SLOTS {
      assert !a.flags[b][m];
    }
  }

  lemma FirstFills(a: Alloc, k: nat, s: Slot, a': Alloc)
    requires Inv(a) && k < |a.groups| && a.groups[k] == Group([], []) && Allocated(a, k, s, a')
    ensures Filled(a', k, 0, 1) && s == Slot(a'.groups[k].units[0], 0)
  {
  }

  /** The next slot of the last unit. */
  lemma NextFills(a: Alloc, k: nat, full: nat, m: nat, s: Slot, a': Alloc)
    requires Inv(a) && Filled(a, k, full, m) && m < SLOTS && Allocated(a, k, s, a')
    ensures Filled(a', k, full, m + 1) && a'.groups[k].units == a.groups[k].units
    ensures s == Slot(a'.groups[k].units[full], m)
  {
    var units := a.groups[k].units;
    UsedUpToFree(a, units[full], m);
    assert Searched(a, k, [full]) == [full];
    forall p | 0 <= p <= full ensures UsedUpTo(a', units[p], if p < full then SLOTS else m + 1) {
      assert UsedUpTo(a, units[p], if p < full then SLOTS else m);
      if p < full {
        GroupUnit(a, Shard(k), units[full]);
        UnitsDistinct(a, Shard(k), p, full);
      }
    }
  }

  lemma UnitsDistinct(a: Alloc, w: Which, p: nat, q: nat)
    requires Inv(a) && Exists(a, w) && p < q < |GroupAt(a, w).units|
    ensures GroupAt(a, w).units[p] != GroupAt(a, w).units[q]
  {
    var units := GroupAt(a, w).units;
    GroupUnit(a, w, units[p]);
    assert units == units[..q] + units[q..];
    assert units[p] in units[..q] && units[q] in units[q..];
    assert multiset(units)[units[p]] == multiset(units[..q])[units[p]] + multiset(units[q..])[units[p]];
  }

  /** A new unit, when the last one is full. */
  lemma NewUnitFills(a: Alloc, k: nat, full: nat, s: Slot, a': Alloc)
    requires Inv(a) && Filled(a, k, full, SLOTS) && Allocated(a, k, s, a')
    ensures Filled(a', k, full + 1, 1) && a.groups[k].units == a'.groups[k].units[..full + 1]
    ensures s == Slot(a'.groups[k].units[full + 1], 0)
  {
    var units := a.groups[k].units;
    UsedUpToFree(a, units[full], SLOTS);
    assert SwapRemoveFirst([full]) == [];
    assert Searched(a, k, [full]) == [];
    forall p | 0 <= p <= full + 1 ensures UsedUpTo(a', a'.groups[k].units[p], if p < full + 1 then SLOTS else 1) {
      if p <= full {
        assert UsedUpTo(a, units[p], if p < full then SLOTS else SLOTS);
        GroupUnit(a, Shard(k), units[p]);
      }
    }
  }

  /** Going from `n - 1` to `n`: either the same unit and the next slot, or the next unit and its first slot. */
  lemma NextPlace(n: nat)
    requires n >= 2
    ensures var full, m := (n - 2) / SLOTS, (n - 2) % SLOTS + 1;
      if m < SLOTS then (n - 1) / SLOTS == full && (n - 1) % SLOTS == m
      else (n - 1) / SLOTS == full + 1 && (n - 1) % SLOTS == 0
  {
  }

  lemma OneMoreFills(a: Alloc, k: nat, n: nat, s: Slot, a': Alloc)
    requires Inv(a) && n >= 2 && Filled(a, k, (n - 2) / SLOTS, (n - 2) % SLOTS + 1) && Allocated(a, k, s, a')
    ensures Filled(a', k, (n - 1) / SLOTS, (n - 1) % SLOTS + 1)
    ensures a.groups[k].units <= a'.groups[k].units
    ensures s == Slot(a'.groups[k].units[(n - 1) / SLOTS], (n - 1) % SLOTS)
  {
    NextPlace(n);
    if (n - 2) % SLOTS + 1 < SLOTS {
      NextFills(a, k, (n - 2) / SLOTS, (n - 2) % SLOTS + 1, s, a');
    } else {
      NewUnitFills(a, k, (n - 2) / SLOTS, s, a');
    }
  }

  /** After `n` allocations from an empty group. */
  lemma {:induction false} AfterAllocations(states: seq<Alloc>, slots: seq<Slot>, k: nat, n: nat)
    requires Allocations(states, slots, k) && states[0].groups[k] == Group([], []) && 0 < n < |states|
    ensures Filled(states[n], k, (n - 1) / SLOTS, (n - 1) % SLOTS + 1)
  {
    assert AllocationAt(states, slots, k, n - 1);
    if n == 1 {
      FirstFills(states[0], k, slots[0], states[1]);
    } else {
      AfterAllocations(states, slots, k, n - 1);
      AllocationsKeep(states, slots, k, n - 1);
      OneMoreFills(states[n - 1], k, n, slots[n - 1], states[n]);
    }
  }

  /** What the `n`th of them returned, and that units only get added. */
  lemma LastAllocation(states: seq<Alloc>, slots: seq<Slot>, k: nat, n: nat)
    requires Allocations(states, slots, k) && states[0].groups[k] == Group([], []) && 0 < n < |states|
    ensures Filled(states[n], k, (n - 1) / SLOTS, (n - 1) % SLOTS + 1)
    ensures slots[n - 1] == Slot(states[n].groups[k].units[(n - 1) / SLOTS], (n - 1) % SLOTS)
    ensures k < |states[n - 1].groups| && states[n - 1].groups[k].units <= states[n].groups[k].units
  {
    AllocationsKeep(states, slots, k, n - 1);
    assert AllocationAt(states, slots, k, n - 1);
    if n == 1 {
      FirstFills(states[0], k, slots[0], states[1]);
    } else {
      AfterAllocations(states, slots, k, n - 1);
      OneMoreFills(states[n - 1], k, n, slots[n - 1], states[n]);
    }
  }

  /** The `i`th slot stays where it is while more follow. */
  lemma {:induction false} SlotStays(states: seq<Alloc>, slots: seq<Slot>, k: nat, i: nat, n: nat)
    requires Allocations(states, slots, k) && states[0].groups[k] == Group([], []) && i < n < |states|
    ensures k < |states[n].groups| && i / SLOTS < |states[n].groups[k].units|
    ensures slots[i] == Slot(states[n].groups[k].units[i / SLOTS], i % SLOTS)
    decreases n
  {
    LastAllocation(states, slots, k, n);
    if i < n - 1 {
      SlotStays(states, slots, k, i, n - 1);
      assert states[n].groups[k].units[i / SLOTS] == states[n - 1].groups[k].units[i / SLOTS];
    }
  }

  /**
   Undisturbed, the `i`th allocation from an empty group returns slot `i % 16` of unit `i / 16`: so
   sixteen allocations share one unit, and n take no more units than they need.
   */
  lemma NthAllocation(states: seq<Alloc>, slots: seq<Slot>, k: nat, i: nat)
    requires Allocations(states, slots, k) && states[0].groups[k] == Group([], []) && i < |slots|
    ensures k < |states[|slots|].groups| && |states[|slots|].groups[k].units| == (|slots| + SLOTS - 1) / SLOTS
    ensures i / SLOTS < |states[|slots|].groups[k].units|
    ensures slots[i] == Slot(states[|slots|].groups[k].units[i / SLOTS], i % SLOTS)
  {
    AfterAllocations(states, slots, k, |slots|);
    SlotStays(states, slots, k, i, |slots|);
  }
}
