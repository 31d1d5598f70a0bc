/**
 The reader signals of one thread: hazard pointer slots and the critical section flag,
 with the store buffer that stands for "not yet visible to the collector".

 A thread's stores enter a FIFO buffer and land in memory at arbitrary later moments. A thread
 sees its own stores at once (`Drain`); the collector sees memory. The light fence does
 nothing here; the heavy fence drains every thread's buffer.
 */
module Signals {
  import opened Options

  // Hazard pointer slots per thread.
  const SLOTS: nat := 15

  datatype Store = SlotStore(i: nat, addr: Option<nat>) | FlagStore(b: bool)

  datatype Signals = Signals(slots: seq<Option<nat>>, flag: bool, buf: seq<Store>)

  const Silent := Signals(seq(SLOTS, _ => None), false, [])

  function Land(g: Signals, st: Store): Signals {
    match st
    case SlotStore(i, a) => if i < |g.slots| then g.(slots := g.slots[i := a]) else g
    case FlagStore(b) => g.(flag := b)
  }

  function FlushOne(g: Signals): Signals
    requires g.buf != []
  {
    Land(g.(buf := g.buf[1..]), g.buf[0])
  }

  function Issue(g: Signals, st: Store): Signals { g.(buf := g.buf + [st]) }

  /** Memory after every buffered store has landed, which is also the thread's own view. */
  function Drain(g: Signals): (d: Signals)
    ensures d.buf == [] && |d.slots| == |g.slots|
    decreases |g.buf|
  {
    if g.buf == [] then g else Drain(FlushOne(g))
  }

  /** A thread reads its own latest stores, whatever has landed so far. */
  lemma {:induction false} DrainIssue(g: Signals, st: Store)
    ensures Drain(Issue(g, st)) == Land(Drain(g), st)
    decreases |g.buf|
  {
    if g.buf == [] {
      assert Issue(g, st).buf == [st];
      assert FlushOne(Issue(g, st)).buf == [];
      assert FlushOne(Issue(g, st)) == Land(g, st);
    } else {
      DrainIssue(FlushOne(g), st);
      assert (g.buf + [st])[0] == g.buf[0];
      assert (g.buf + [st])[1..] == g.buf[1..] + [st];
      assert FlushOne(Issue(g, st)) == Issue(FlushOne(g), st);
    }
  }

  /** No store to slot `i` is in flight, so memory keeps this slot until the thread acts on it. */
  predicate SlotSettled(g: Signals, i: nat) {
    forall k :: 0 <= k < |g.buf| ==> !(g.buf[k].SlotStore? && g.buf[k].i == i)
  }

  predicate FlagSettled(g: Signals) {
    forall k :: 0 <= k < |g.buf| ==> !g.buf[k].FlagStore?
  }

  lemma FlushKeepsSettledSlot(g: Signals, i: nat)
    requires g.buf != [] && i < |g.slots| && SlotSettled(g, i)
    ensures SlotSettled(FlushOne(g), i) && FlushOne(g).slots[i] == g.slots[i]
  {
    assert !(g.buf[0].SlotStore? && g.buf[0].i == i);
    forall k | 0 <= k < |g.buf[1..]| ensures !(g.buf[1..][k].SlotStore? && g.buf[1..][k].i == i) {
      assert g.buf[1..][k] == g.buf[k + 1];
    }
  }

  lemma FlushKeepsSettledFlag(g: Signals)
    requires g.buf != [] && FlagSettled(g)
    ensures FlagSettled(FlushOne(g)) && FlushOne(g).flag == g.flag
  {
    assert !g.buf[0].FlagStore?;
    forall k | 0 <= k < |g.buf[1..]| ensures !g.buf[1..][k].FlagStore? {
      assert g.buf[1..][k] == g.buf[k + 1];
    }
  }
}
