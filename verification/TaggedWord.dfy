/**
 The 64-bit word behind a `Counter`: the higher 63 bits are a signed count, the lowest bit is the
 tag. Overflow wraps, as atomic arithmetic and release builds do.
 */
module TaggedWord {
  import opened Counters
  import opened Words

  const TWO63 := 0x8000_0000_0000_0000

  type I64 = v: int | -TWO63 <= v < TWO63

  lemma Pow2Plus8(n: nat)
    ensures Pow2(n + 8) == 0x100 * Pow2(n)
  {
    assert Pow2(n + 2) == 4 * Pow2(n);
    assert Pow2(n + 4) == 4 * Pow2(n + 2);
    assert Pow2(n + 6) == 4 * Pow2(n + 4);
  }

  lemma PowerOfTwo()
    ensures Pow2(63) == TWO63
  {
    Pow2Plus8(55); Pow2Plus8(47); Pow2Plus8(39); Pow2Plus8(31); Pow2Plus8(23); Pow2Plus8(15); Pow2Plus8(7);
    assert Pow2(7) == 0x80;
  }

  function Wrapped(v: int): I64
    requires -2 * TWO63 <= v < 2 * TWO63
  {
    if v < -TWO63 then v + 2 * TWO63 else if v >= TWO63 then v - 2 * TWO63 else v
  }

  /** The number whose word results from combining words bit by bit. */
  function FromWord(w: seq<bool>): I64
    requires |w| == 64
  {
    PowerOfTwo();
    ValueInRange(w);
    Value(w)
  }

  function BitOr(a: I64, b: I64): I64 { FromWord(Or(Bits(a, 64), Bits(b, 64))) }

  function BitAnd(a: I64, b: I64): I64 { FromWord(And(Bits(a, 64), Bits(b, 64))) }

  function BitNot(a: I64): I64 { FromWord(Not(Bits(a, 64))) }

  function ShiftRightOne(a: I64): I64 { FromWord(ShiftRight(Bits(a, 64))) }

  // ----- the operations on the word, as arithmetic

  function RefCount(v: I64): I64 { v / 2 }

  function Tag(v: I64): bool { v % 2 == 1 }

  function AddOneRef(v: I64): I64 { Wrapped(v + 2) }

  function SubOneRefAndTag(v: I64): I64 { Wrapped(v - v % 2 - 1) }

  function MaskTag(v: I64): I64 { v - v % 2 }

  /** The shift and masks that the code applies to the word compute just that. */
  lemma BitsMean(v: I64)
    ensures ShiftRightOne(v) == RefCount(v) && (BitAnd(v, 1) != 0 <==> Tag(v))
    ensures Wrapped(BitOr(v, 1) - 2) == SubOneRefAndTag(v)
    ensures BitAnd(v, BitNot(1)) == MaskTag(v)
  {
    ShiftMeans(v);
    OrMeans(v);
    TagMeans(v);
    MaskMeans(v);
  }

  lemma ShiftMeans(v: I64)
    ensures ShiftRightOne(v) == RefCount(v)
  {
    PowerOfTwo();
    ValueOfBits(v, 64);
    ShiftRightHalves(Bits(v, 64));
  }

  lemma TagMeans(v: I64)
    ensures BitAnd(v, 1) != 0 <==> Tag(v)
  {
    PowerOfTwo();
    ValueOfBits(v, 64);
    AndOne(Bits(v, 64));
  }

  lemma OrMeans(v: I64)
    ensures BitOr(v, 1) == v - v % 2 + 1
  {
    PowerOfTwo();
    ValueOfBits(v, 64);
    OrOne(Bits(v, 64));
  }

  lemma MaskMeans(v: I64)
    ensures BitAnd(v, BitNot(1)) == MaskTag(v)
  {
    PowerOfTwo();
    ValueOfBits(v, 64);
    AndNotOne(Bits(v, 64));
    BitsOfValue(Not(Bits(1, 64)));
  }

  function Decode(v: I64): Counter { Counter(RefCount(v), Tag(v)) }

  const MIN_REFS := -0x4000_0000_0000_0000
  const MAX_REFS := 0x3FFF_FFFF_FFFF_FFFF

  predicate InRange(c: Counter) { MIN_REFS <= c.n <= MAX_REFS }

  function Encode(c: Counter): I64
    requires InRange(c)
  {
    2 * c.n + Bit(c.tag)
  }

  /** Words and counters in range correspond one to one. */
  lemma EncodeDecode(v: I64, c: Counter)
    ensures InRange(Decode(v)) && Encode(Decode(v)) == v
    ensures InRange(c) ==> Decode(Encode(c)) == c
  {
  }

  /** Adding two increments the count and keeps the tag, exactly when the count has room. */
  lemma AddRefines(v: I64)
    ensures Decode(AddOneRef(v)) == Increment(Decode(v)) <==> Decode(v).n < MAX_REFS
    ensures Decode(v).n == MAX_REFS ==> Decode(AddOneRef(v)) == Decode(v).(n := MIN_REFS)
  {
  }

  lemma SubOneRefRefines(v: I64)
    ensures Decode(SubOneRefAndTag(v)) == DecrementAndTag(Decode(v)) <==> Decode(v).n > MIN_REFS
    ensures Decode(v).n == MIN_REFS ==> Decode(SubOneRefAndTag(v)) == Counter(MAX_REFS, true)
  {
  }

  /** Or-ing one and subtracting two decrements the count and sets the tag, whatever its sign. */
  lemma SubRefines(v: I64, r: I64)
    requires r == Wrapped(BitOr(v, 1) - 2)
    ensures Decode(r) == DecrementAndTag(Decode(v)) <==> Decode(v).n > MIN_REFS
    ensures Decode(v).n == MIN_REFS ==> Decode(r) == Counter(MAX_REFS, true)
  {
    OrMeans(v);
    assert r == SubOneRefAndTag(v);
    SubOneRefRefines(v);
  }

  lemma MaskRefines(v: I64)
    ensures Decode(BitAnd(v, BitNot(1))) == ClearTag(Decode(v))
  {
    MaskMeans(v);
  }

  // ----- the atomic word

  datatype Access = Add | SubAndTag | Mask

  /** What an access does to a counter of unbounded range. */
  function Ideal(c: Counter, a: Access): Counter {
    match a
    case Add => Increment(c)
    case SubAndTag => DecrementAndTag(c)
    case Mask => ClearTag(c)
  }

  function WrapRefs(c: Counter): Counter {
    if c.n > MAX_REFS then c.(n := MIN_REFS) else if c.n < MIN_REFS then c.(n := MAX_REFS) else c
  }

  /** What it does to the counter in the word. */
  function Perform(c: Counter, a: Access): Counter { WrapRefs(Ideal(c, a)) }

  function Replay(c: Counter, log: seq<Access>): Counter {
    if log == [] then c else Perform(Replay(c, log[..|log| - 1]), log[|log| - 1])
  }

  function IdealReplay(c: Counter, log: seq<Access>): Counter {
    if log == [] then c else Ideal(IdealReplay(c, log[..|log| - 1]), log[|log| - 1])
  }

  /** As long as a word has seen fewer accesses than it has room for, nothing has wrapped. */
  lemma {:induction false} NothingWraps(log: seq<Access>)
    requires |log| <= MAX_REFS
    ensures Replay(Zero, log) == IdealReplay(Zero, log)
    ensures -|log| <= Replay(Zero, log).n <= |log|
  {
    if log != [] {
      NothingWraps(log[..|log| - 1]);
    }
  }

  function WordAfter(v: I64, a: Access): I64 {
    match a
    case Add => AddOneRef(v)
    case SubAndTag => SubOneRefAndTag(v)
    case Mask => MaskTag(v)
  }

  lemma WordPerforms(v: I64, a: Access)
    ensures Decode(WordAfter(v, a)) == Perform(Decode(v), a)
  {
  }

  /** One shard's word, with every access made to it so far, by whatever thread. */
  class AtomicTaggedCounter {
    var word: I64
    ghost var log: seq<Access>

    ghost predicate Valid()
      reads this
    {
      Decode(word) == Replay(Zero, log)
    }

    constructor ()
      ensures Valid() && log == [] && Decode(word) == Zero
    {
      word := 0;
      log := [];
    }

    ghost method Record(before: I64, a: Access)
      requires Decode(before) == Replay(Zero, log) && word == WordAfter(before, a)
      modifies this`log
      ensures Valid() && log == old(log) + [a]
    {
      WordPerforms(before, a);
      log := log + [a];
      assert log[..|log| - 1] == old(log);
    }

    method IncrementRefCount()
      requires Valid()
      modifies this
      ensures Valid() && log == old(log) + [Add]
      ensures Decode(word) == Perform(old(Decode(word)), Add)
    {
      ghost var before := word;
      word := AddOneRef(word);
      Record(before, Add);
    }

    method FetchAndClearTag() returns (seen: I64)
      requires Valid()
      modifies this
      ensures Valid() && log == old(log) + [Mask]
      ensures Decode(seen) == old(Decode(word)) && Decode(word) == ClearTag(Decode(seen))
    {
      seen := word;
      word := MaskTag(word);
      Record(seen, Mask);
    }

    /** What other threads do to the word between two accesses of this one. */
    method Interfere(others: seq<Access>)
      requires Valid()
      modifies this
      ensures Valid() && log == old(log) + others
    {
      var i := 0;
      while i < |others|
        invariant 0 <= i <= |others| && Valid() && log == old(log) + others[..i]
      {
        match others[i] {
          case Add => IncrementRefCount();
          case Mask => var _ := FetchAndClearTag();
          case SubAndTag =>
            ghost var before := word;
            word := SubOneRefAndTag(word);
            Record(before, SubAndTag);
        }
        i := i + 1;
      }
    }

    /** It may fail for no reason, and then only reports the word. */
    method CompareExchangeWeak(value: I64, newValue: I64, spurious: bool) returns (done: bool, seen: I64)
      requires Valid() && newValue == SubOneRefAndTag(value)
      modifies this
      ensures Valid() && done == (old(word) == value && !spurious)
      ensures done ==> log == old(log) + [SubAndTag]
      ensures !done ==> seen == word && log == old(log)
    {
      seen := word;
      done := word == value && !spurious;
      if done {
        word := newValue;
        Record(value, SubAndTag);
      }
    }

    /** One round of the loop: others act, then the compare-exchange is tried. */
    method Try(value: I64, others: seq<Access>, spurious: bool) returns (done: bool, seen: I64)
      requires Valid()
      modifies this
      ensures Valid()
      ensures log == old(log) + others + if done then [SubAndTag] else []
      ensures others == [] && !spurious && old(word) == value ==> done
      ensures !done ==> seen == word
    {
      var newValue := SubOneRefAndTag(value);
      if others != [] {
        Interfere(others);
      }
      done, seen := CompareExchangeWeak(value, newValue, spurious);
    }

    /**
     The compare-exchange loop. `schedule` lists, for each try, the accesses that other threads get
     in before it and whether the weak compare-exchange then fails for no reason. The loop takes
     effect as one atomic access, in its last try; `others` are the accesses that came first.
     */
    method DecrementRefCountAndSetTag(schedule: seq<(seq<Access>, bool)>)
      returns (tries: nat, ghost others: seq<Access>)
      requires Valid()
      modifies this
      ensures Valid() && 0 < tries <= |schedule| + 1
      ensures others <= Accesses(schedule)
      ensures log == old(log) + others + [SubAndTag]
    {
      var value := word;
      var rest := schedule;
      tries, others := 0, [];
      while true
        invariant Valid() && log == old(log) + others
        invariant Split(others, rest, schedule)
        invariant tries + |rest| == |schedule|
        invariant rest == [] ==> value == word
        decreases |rest|
      {
        var first := First(rest);
        Regroup(others, rest, schedule);
        ghost var before := log;
        var done, seen := Try(value, first.0, first.1);
        Prolong(old(log), others, before, first.0, if done then [SubAndTag] else [], log);
        tries := tries + 1;
        others := others + first.0;
        if done {
          return;
        }
        value, rest := seen, rest[1..];
      }
    }
  }

  /** What others have done and what they will do is what the schedule says. */
  predicate Split(others: seq<Access>, rest: seq<(seq<Access>, bool)>, schedule: seq<(seq<Access>, bool)>) {
    others + Accesses(rest) == Accesses(schedule)
  }

  function First(rest: seq<(seq<Access>, bool)>): (seq<Access>, bool) { if rest == [] then ([], false) else rest[0] }

  lemma Regroup(others: seq<Access>, rest: seq<(seq<Access>, bool)>, schedule: seq<(seq<Access>, bool)>)
    requires Split(others, rest, schedule)
    ensures rest != [] ==> Split(others + First(rest).0, rest[1..], schedule)
    ensures others + First(rest).0 <= Accesses(schedule)
    ensures |others| + |First(rest).0| <= |Accesses(schedule)|
  {
    if rest != [] {
      assert others + Accesses(rest) == others + rest[0].0 + Accesses(rest[1..]);
    }
  }

  lemma Prolong(start: seq<Access>, others: seq<Access>, now: seq<Access>, more: seq<Access>, last: seq<Access>, end: seq<Access>)
    requires now == start + others && end == now + more + last
    ensures end == start + (others + more) + last
  {
  }

  function Accesses(schedule: seq<(seq<Access>, bool)>): seq<Access> {
    if schedule == [] then [] else schedule[0].0 + Accesses(schedule[1..])
  }
}
