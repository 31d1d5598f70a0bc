/**
 The state of the slot allocator, and the atomic accesses and lock-protected updates made to it.

 A unit is a block of memory, named by its address. The first 16 words of a block are the usage
 flags of its 16 slots. The units are listed in one group per shard and in one temporary group.
 */
module SlotAlloc {

  const SLOTS: nat := 16

  datatype Slot = Slot(unit: nat, index: nat)

  /** `candidates` are positions in `units`, of units that may have a free slot. */
  datatype Group = Group(units: seq<nat>, candidates: seq<nat>)

  datatype Alloc = Alloc(flags: map<nat, seq<bool>>, groups: seq<Group>, temp: Group)

  datatype Which = Shard(k: nat) | Temp

  datatype AllocOp =
    | Clear(s: Slot)                           // the usage flag of a slot goes from 1 to 0
    | Claim(k: nat, pos: nat, i: nat)          // a usage flag of a unit of group `k` goes from 0 to 1
    | AddUnit(k: nat, base: nat)               // a new unit, its first slot already claimed
    | SetCandidates(w: Which, candidates: seq<nat>)
    | Prune(pos: nat)                          // a unit of the temporary group is freed
    | SwapTemp(k: nat)

  predicate Exists(a: Alloc, w: Which) { w.Shard? ==> w.k < |a.groups| }

  function GroupAt(a: Alloc, w: Which): Group
    requires Exists(a, w)
  {
    match w
    case Shard(k) => a.groups[k]
    case Temp => a.temp
  }

  function Update(a: Alloc, w: Which, g: Group): Alloc
    requires Exists(a, w)
  {
    match w
    case Shard(k) => a.(groups := a.groups[k := g])
    case Temp => a.(temp := g)
  }

  // ----- usage flags

  predicate IsUsed(a: Alloc, s: Slot) {
    s.unit in a.flags && s.index < |a.flags[s.unit]| && a.flags[s.unit][s.index]
  }

  predicate AnyUsed(flags: seq<bool>) { exists i :: 0 <= i < |flags| && flags[i] }

  predicate AnyFree(flags: seq<bool>) { exists i :: 0 <= i < |flags| && !flags[i] }

  /** Blocks of `len` bytes do not overlap. */
  predicate Apart(len: nat, b: nat, c: nat) { b != c ==> b + len <= c || c + len <= b }

  /** One word for the flag and one for each shard, for every slot. */
  function DataLenInBytes(shards: nat): nat { SLOTS * (1 + shards) * 8 }

  predicate FreshBlock(a: Alloc, base: nat) {
    && base !in a.flags && base % 128 == 0
    && forall b :: b in a.flags ==> Apart(DataLenInBytes(|a.groups|), b, base)
  }

  // ----- the updates

  predicate Ok(a: Alloc, op: AllocOp) {
    match op
    case Clear(s) => IsUsed(a, s)
    case Claim(k, pos, i) =>
      && k < |a.groups| && pos < |a.groups[k].units| && a.groups[k].units[pos] in a.flags
      && i < |a.flags[a.groups[k].units[pos]]| && !a.flags[a.groups[k].units[pos]][i]
    case AddUnit(k, base) => k < |a.groups| && FreshBlock(a, base)
    case SetCandidates(w, c) => Exists(a, w) && CandidatesOk(GroupAt(a, w).(candidates := c))
    case Prune(pos) =>
      && pos < |a.temp.units| && a.temp.units[pos] in a.flags
      && !AnyUsed(a.flags[a.temp.units[pos]])
    case SwapTemp(k) => k < |a.groups| && CandidatesOk(a.temp)
  }

  function NewFlags(): seq<bool> { seq(SLOTS, i => i == 0) }

  function RemoveAt<T>(s: seq<T>, i: nat): seq<T>
    requires i < |s|
  {
    s[..i] + s[i + 1..]
  }

  function Apply(a: Alloc, op: AllocOp): Alloc
    requires Ok(a, op)
  {
    match op
    case Clear(s) => a.(flags := a.flags[s.unit := a.flags[s.unit][s.index := false]])
    case Claim(k, pos, i) =>
      var b := a.groups[k].units[pos];
      a.(flags := a.flags[b := a.flags[b][i := true]])
    case AddUnit(k, base) =>
      var g := a.groups[k];
      Update(a, Shard(k), Group(g.units + [base], g.candidates + [|g.units|])).(flags := a.flags[base := NewFlags()])
    case SetCandidates(w, c) => Update(a, w, GroupAt(a, w).(candidates := c))
    case Prune(pos) =>
      Alloc(a.flags - {a.temp.units[pos]}, a.groups, a.temp.(units := RemoveAt(a.temp.units, pos)))
    case SwapTemp(k) => Alloc(a.flags, a.groups[k := a.temp], a.groups[k])
  }

  // ----- the invariant

  /** How often the groups list the unit `b`. */
  function Listings(groups: seq<Group>, b: nat): nat {
    if groups == [] then 0
    else Listings(groups[..|groups| - 1], b) + multiset(groups[|groups| - 1].units)[b]
  }

  function AllListings(a: Alloc, b: nat): nat { Listings(a.groups, b) + multiset(a.temp.units)[b] }

  /** A block is listed in exactly one place, and nothing else is listed. */
  predicate ListedOnce(a: Alloc, b: nat) { AllListings(a, b) == if b in a.flags then 1 else 0 }

  /** Candidates are positions of units, none listed twice. */
  predicate CandidatesOk(g: Group) {
    && (forall i :: 0 <= i < |g.candidates| ==> g.candidates[i] < |g.units|)
    && (forall i, j :: 0 <= i < j < |g.candidates| ==> g.candidates[i] != g.candidates[j])
  }

  predicate BlockOk(a: Alloc, b: nat)
    requires b in a.flags
  {
    |a.flags[b]| == SLOTS && b % 128 == 0
  }

  ghost predicate Inv(a: Alloc) {
    && (forall b {:trigger ListedOnce(a, b)} :: ListedOnce(a, b))
    && (forall b {:trigger BlockOk(a, b)} :: b in a.flags ==> BlockOk(a, b))
    && (forall b, c :: b in a.flags && c in a.flags ==> Apart(DataLenInBytes(|a.groups|), b, c))
    && (forall k :: 0 <= k < |a.groups| ==> CandidatesOk(a.groups[k]))
  }

  /** The slots in use. */
  function Used(a: Alloc): set<Slot> {
    set b, i | b in a.flags && 0 <= i < |a.flags[b]| && a.flags[b][i] :: Slot(b, i)
  }

  ghost predicate Listed(a: Alloc, w: Which, pos: nat, s: Slot) {
    Exists(a, w) && pos < |GroupAt(a, w).units| && GroupAt(a, w).units[pos] == s.unit
  }

  lemma {:induction false} ListingsUpdate(groups: seq<Group>, k: nat, g: Group, b: nat)
    requires k < |groups|
    ensures Listings(groups[k := g], b) == Listings(groups, b) - multiset(groups[k].units)[b] + multiset(g.units)[b]
    ensures multiset(groups[k].units)[b] <= Listings(groups, b)
  {
    var n := |groups| - 1;
    if k < n {
      ListingsUpdate(groups[..n], k, g, b);
      assert groups[k := g][..n] == groups[..n][k := g];
    } else {
      assert groups[k := g][..n] == groups[..n];
    }
  }

  lemma {:induction false} SomeGroupLists(groups: seq<Group>, b: nat) returns (k: nat, pos: nat)
    requires Listings(groups, b) > 0
    ensures k < |groups| && pos < |groups[k].units| && groups[k].units[pos] == b
  {
    var g := groups[|groups| - 1];
    if b in multiset(g.units) {
      k := |groups| - 1;
      pos :| 0 <= pos < |g.units| && g.units[pos] == b;
    } else {
      k, pos := SomeGroupLists(groups[..|groups| - 1], b);
    }
  }

  /** The units a group lists are blocks, and no group lists a unit twice. */
  lemma GroupUnit(a: Alloc, w: Which, b: nat)
    requires Inv(a) && Exists(a, w) && b in GroupAt(a, w).units
    ensures b in a.flags && |a.flags[b]| == SLOTS && multiset(GroupAt(a, w).units)[b] == 1
  {
    assert b in multiset(GroupAt(a, w).units);
    assert ListedOnce(a, b);
    if w.Shard? {
      ListingsUpdate(a.groups, w.k, a.groups[w.k], b);
    }
    assert BlockOk(a, b);
  }

  /** Different groups list different units. */
  lemma UnitsDiffer(a: Alloc, w: Which, w': Which, b: nat)
    requires Inv(a) && Exists(a, w) && Exists(a, w') && w != w'
    requires b in GroupAt(a, w).units
    ensures b !in GroupAt(a, w').units
  {
    assert b in multiset(GroupAt(a, w).units);
    assert ListedOnce(a, b);
    var none := Group([], []);
    if w.Shard? {
      ListingsUpdate(a.groups, w.k, none, b);
    }
    if w'.Shard? {
      ListingsUpdate(if w.Shard? then a.groups[w.k := none] else a.groups, w'.k, none, b);
    }
    assert b !in multiset(GroupAt(a, w').units);
  }

  /** The slots in use are the used slots of the units in the groups, the temporary one included. */
  lemma UsedIsListed(a: Alloc, s: Slot)
    requires Inv(a)
    ensures s in Used(a) <==> IsUsed(a, s) && exists w, pos :: Listed(a, w, pos, s)
  {
    if s in Used(a) {
      assert ListedOnce(a, s.unit);
      if s.unit in multiset(a.temp.units) {
        var pos :| 0 <= pos < |a.temp.units| && a.temp.units[pos] == s.unit;
        assert Listed(a, Temp, pos, s);
      } else {
        var k, pos := SomeGroupLists(a.groups, s.unit);
        assert Listed(a, Shard(k), pos, s);
      }
    }
  }

  // ----- every update keeps it

  lemma UpdateLists(a: Alloc, w: Which, g: Group, b: nat)
    requires Exists(a, w)
    ensures AllListings(Update(a, w, g), b)
         == AllListings(a, b) - multiset(GroupAt(a, w).units)[b] + multiset(g.units)[b]
  {
    if w.Shard? {
      ListingsUpdate(a.groups, w.k, g, b);
    }
  }

  lemma KeepsListed(a: Alloc, op: AllocOp, b: nat)
    requires Inv(a) && Ok(a, op)
    ensures ListedOnce(Apply(a, op), b)
  {
    assert ListedOnce(a, b);
    match op
    case AddUnit(k, base) =>
      UpdateLists(a, Shard(k), Group(a.groups[k].units + [base], a.groups[k].candidates + [|a.groups[k].units|]), b);
    case SetCandidates(w, c) => UpdateLists(a, w, GroupAt(a, w).(candidates := c), b);
    case Prune(pos) => PruneLists(a.temp.units, pos, b);
    case SwapTemp(k) => ListingsUpdate(a.groups, k, a.temp, b);
    case _ =>
  }

  lemma PruneLists(units: seq<nat>, pos: nat, b: nat)
    requires pos < |units|
    ensures multiset(RemoveAt(units, pos))[b] == multiset(units)[b] - if units[pos] == b then 1 else 0
  {
    assert units == units[..pos] + [units[pos]] + units[pos + 1..];
  }

  lemma KeepsBlock(a: Alloc, op: AllocOp, b: nat)
    requires Inv(a) && Ok(a, op) && b in Apply(a, op).flags
    ensures BlockOk(Apply(a, op), b)
  {
    assert b in a.flags ==> BlockOk(a, b);
  }

  lemma KeepsApart(a: Alloc, op: AllocOp, b: nat, c: nat)
    requires Inv(a) && Ok(a, op) && b in Apply(a, op).flags && c in Apply(a, op).flags
    ensures Apart(DataLenInBytes(|a.groups|), b, c) && |Apply(a, op).groups| == |a.groups|
  {
  }

  lemma KeepsCandidates(a: Alloc, op: AllocOp, k: nat)
    requires Inv(a) && Ok(a, op) && k < |Apply(a, op).groups|
    ensures CandidatesOk(Apply(a, op).groups[k])
  {
    assert CandidatesOk(a.groups[k]);
  }

  lemma KeepsInv(a: Alloc, op: AllocOp)
    requires Inv(a) && Ok(a, op)
    ensures Inv(Apply(a, op))
  {
    var a' := Apply(a, op);
    forall b ensures ListedOnce(a', b) {
      KeepsListed(a, op, b);
    }
    forall b | b in a'.flags ensures BlockOk(a', b) {
      KeepsBlock(a, op, b);
    }
    forall b, c | b in a'.flags && c in a'.flags ensures Apart(DataLenInBytes(|a'.groups|), b, c) {
      KeepsApart(a, op, b, c);
    }
    forall k | 0 <= k < |a'.groups| ensures CandidatesOk(a'.groups[k]) {
      KeepsCandidates(a, op, k);
    }
  }

  // ----- refinement of a set of slots

  /** What an update means for the set of slots in use. */
  function LiveAfter(live: set<Slot>, a: Alloc, op: AllocOp): set<Slot>
    requires Ok(a, op)
  {
    match op
    case Clear(s) => live - {s}
    case Claim(k, pos, i) => live + {Slot(a.groups[k].units[pos], i)}
    case AddUnit(k, base) => live + {Slot(base, 0)}
    case _ => live
  }

  /** Only claims and clears change the set; a claimed slot was not in it, a cleared one was. */
  lemma Refines(a: Alloc, op: AllocOp)
    requires Inv(a) && Ok(a, op)
    ensures Used(Apply(a, op)) == LiveAfter(Used(a), a, op)
    ensures op.Claim? ==> Slot(a.groups[op.k].units[op.pos], op.i) !in Used(a)
    ensures op.AddUnit? ==> Slot(op.base, 0) !in Used(a)
    ensures op.Clear? ==> op.s in Used(a)
  {
    forall s ensures s in Used(Apply(a, op)) <==> s in LiveAfter(Used(a), a, op) {
      assert s in Used(a) <==> IsUsed(a, s);
      assert s in Used(Apply(a, op)) <==> IsUsed(Apply(a, op), s);
    }
  }

  // ----- what the holder of a group's lock can rely on

  predicate Touches(op: AllocOp, w: Which) {
    match op
    case Clear(_) => false
    case Claim(k, _, _) => w == Shard(k)
    case AddUnit(k, _) => w == Shard(k)
    case SetCandidates(w', _) => w == w'
    case Prune(_) => w == Temp
    case SwapTemp(k) => w == Temp || w == Shard(k)
  }

  /** No flag of `b` has been set. */
  predicate OnlyCleared(a: Alloc, a': Alloc, b: nat) {
    && b in a.flags && b in a'.flags && |a'.flags[b]| == |a.flags[b]|
    && forall i :: 0 <= i < |a.flags[b]| && a'.flags[b][i] ==> a.flags[b][i]
  }

  /** The group itself stays, its units stay allocated, and their slots can only become free. */
  ghost predicate Stable(a: Alloc, a': Alloc, w: Which)
    requires Exists(a, w)
  {
    && |a'.groups| == |a.groups|
    && GroupAt(a', w) == GroupAt(a, w)
    && forall b {:trigger OnlyCleared(a, a', b)} :: b in GroupAt(a, w).units ==> OnlyCleared(a, a', b)
  }

  lemma OtherOpIsStable(a: Alloc, op: AllocOp, w: Which, b: nat)
    requires Inv(a) && Ok(a, op) && Exists(a, w) && !Touches(op, w) && b in GroupAt(a, w).units
    ensures OnlyCleared(a, Apply(a, op), b)
  {
    GroupUnit(a, w, b);
    match op
    case Claim(k, pos, i) => UnitsDiffer(a, w, Shard(k), b);
    case Prune(pos) => UnitsDiffer(a, w, Temp, b);
    case _ =>
  }

  lemma StableReflexive(a: Alloc, w: Which)
    requires Inv(a) && Exists(a, w)
    ensures Stable(a, a, w)
  {
    forall b | b in GroupAt(a, w).units ensures OnlyCleared(a, a, b) {
      GroupUnit(a, w, b);
    }
  }

  lemma StableTransitive(a: Alloc, a1: Alloc, a2: Alloc, w: Which)
    requires Exists(a, w) && Stable(a, a1, w) && Exists(a1, w) && Stable(a1, a2, w)
    ensures Stable(a, a2, w)
  {
    forall b | b in GroupAt(a, w).units ensures OnlyCleared(a, a2, b) {
      assert OnlyCleared(a, a1, b) && OnlyCleared(a1, a2, b);
    }
  }

  lemma OtherIsStable(a: Alloc, op: AllocOp, w: Which)
    requires Inv(a) && Ok(a, op) && Exists(a, w) && !Touches(op, w)
    ensures Stable(a, Apply(a, op), w)
  {
    forall b | b in GroupAt(a, w).units ensures OnlyCleared(a, Apply(a, op), b) {
      OtherOpIsStable(a, op, w, b);
    }
  }
}
