/** Where the word of a slot for one shard lies in memory. */
module SlotAddresses {
  import opened SlotAlloc

  const WORD := 8
  const CACHE_LINE := 128

  function UsageFlagPtr(s: Slot): nat { s.unit + WORD * s.index }

  function PtrAtShard(s: Slot, shard: nat): nat { UsageFlagPtr(s) + WORD * (SLOTS * (shard + 1)) }

  predicate IsSlot(a: Alloc, s: Slot) { s.unit in a.flags && s.index < SLOTS }

  predicate WordsApart(p: nat, q: nat) { p + WORD <= q || q + WORD <= p }

  /** The word lies inside its unit's block, behind all usage flags, and is aligned. */
  lemma InBounds(a: Alloc, s: Slot, shard: nat)
    requires Inv(a) && IsSlot(a, s) && shard < |a.groups|
    ensures s.unit + WORD * SLOTS <= PtrAtShard(s, shard)
    ensures PtrAtShard(s, shard) + WORD <= s.unit + DataLenInBytes(|a.groups|)
    ensures PtrAtShard(s, shard) % WORD == 0
  {
    assert BlockOk(a, s.unit);
  }

  /** Different slots, or different shards of one slot, have words that do not overlap. */
  lemma WordsAreApart(a: Alloc, s: Slot, shard: nat, t: Slot, shard': nat)
    requires Inv(a) && IsSlot(a, s) && IsSlot(a, t) && shard < |a.groups| && shard' < |a.groups|
    ensures WordsApart(PtrAtShard(s, shard), UsageFlagPtr(t))
    ensures (s, shard) == (t, shard') || WordsApart(PtrAtShard(s, shard), PtrAtShard(t, shard'))
    ensures s == t || WordsApart(UsageFlagPtr(s), UsageFlagPtr(t))
  {
    InBounds(a, s, shard);
    InBounds(a, t, shard');
    assert Apart(DataLenInBytes(|a.groups|), s.unit, t.unit);
  }

  /** Words of different shards never share a cache line, nor does a word share one with a flag. */
  lemma ShardsHaveTheirOwnLines(a: Alloc, s: Slot, shard: nat, t: Slot, shard': nat)
    requires Inv(a) && IsSlot(a, s) && IsSlot(a, t) && shard < |a.groups| && shard' < |a.groups|
    ensures PtrAtShard(s, shard) / CACHE_LINE != UsageFlagPtr(t) / CACHE_LINE
    ensures shard != shard' ==> PtrAtShard(s, shard) / CACHE_LINE != PtrAtShard(t, shard') / CACHE_LINE
  {
    assert BlockOk(a, s.unit) && BlockOk(a, t.unit);
    assert Apart(DataLenInBytes(|a.groups|), s.unit, t.unit);
    LineOf(s, shard);
    LineOf(t, shard');
  }

  lemma LineOf(s: Slot, shard: nat)
    requires s.unit % CACHE_LINE == 0 && s.index < SLOTS
    ensures PtrAtShard(s, shard) / CACHE_LINE == s.unit / CACHE_LINE + 1 + shard
    ensures UsageFlagPtr(s) / CACHE_LINE == s.unit / CACHE_LINE
  {
  }

  /** From the flag on, one cache line further for each shard; the block ends with the last word. */
  lemma Strides(s: Slot, shard: nat)
    ensures PtrAtShard(s, 0) == UsageFlagPtr(s) + CACHE_LINE
    ensures PtrAtShard(s, shard + 1) == PtrAtShard(s, shard) + CACHE_LINE
    ensures s.index == SLOTS - 1 ==> PtrAtShard(s, shard) + WORD == s.unit + DataLenInBytes(shard + 1)
    ensures s.index + 1 < SLOTS ==> PtrAtShard(Slot(s.unit, s.index + 1), shard) == PtrAtShard(s, shard) + WORD
  {
  }
}
