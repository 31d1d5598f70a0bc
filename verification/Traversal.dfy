/**
 The traversal of the reader signals, and then the update of one object, when the other threads
 stand still: the collector gets through, and finds exactly what is there.
 */
module Traversal {
  import opened Options
  import opened Signals
  import opened Heap
  import opened Protocol
  import opened ReaderInvariant
  import opened FreeSafety

  ghost predicate CollectAt(path: seq<State>, k: nat)
    requires k + 1 < |path|
  {
    Enabled(path[k], Collect) && path[k + 1] == Do(path[k], Collect)
  }

  ghost predicate IsCollectPath(path: seq<State>, s: State, n: nat, s': State) {
    && |path| == n + 1 && path[0] == s && path[n] == s'
    && forall k {:trigger CollectAt(path, k)} :: 0 <= k < n ==> CollectAt(path, k)
  }

  /** `n` steps of the collector alone lead from `s` to `s'`. */
  ghost predicate Collects(s: State, n: nat, s': State) { exists path :: IsCollectPath(path, s, n, s') }

  lemma PathsJoin(p: seq<State>, s: State, m: nat, u: State, q: seq<State>, n: nat, s': State)
    requires IsCollectPath(p, s, m, u) && IsCollectPath(q, u, n, s')
    ensures IsCollectPath(p + q[1..], s, m + n, s')
  {
    var r := p + q[1..];
    forall k | 0 <= k < m + n ensures CollectAt(r, k) {
      if k < m {
        assert CollectAt(p, k);
      } else {
        assert CollectAt(q, k - m);
        assert r[k] == q[k - m] && r[k + 1] == q[k - m + 1];
      }
    }
  }

  lemma CollectsMore(s: State, m: nat, u: State, n: nat, s': State)
    requires Collects(s, m, u) && Collects(u, n, s')
    ensures Collects(s, m + n, s')
  {
    var p :| IsCollectPath(p, s, m, u);
    var q :| IsCollectPath(q, u, n, s');
    PathsJoin(p, s, m, u, q, n, s');
  }

  lemma CollectsNone(s: State)
    ensures Collects(s, 0, s)
  {
    assert IsCollectPath([s], s, 0, s);
  }

  lemma CollectsOne(s: State)
    requires Enabled(s, Collect)
    ensures Collects(s, 1, Do(s, Collect))
  {
    var path := [s, Do(s, Collect)];
    assert CollectAt(path, 0);
    assert IsCollectPath(path, s, 1, Do(s, Collect));
  }

  /** Records pushed after the fence come into the traversal, and nothing else changes. */
  lemma SeesNewRecords(s: State)
    requires s.col.pc.Scanning?
    ensures Enabled(s, SeeRecords) && Do(s, SeeRecords) == s.(col := s.col.(limit := |s.thr|))
  {
  }

  // ----- one record

  /** The addresses in the slots from `i` on. */
  function Found(slots: seq<Option<nat>>, i: nat): set<nat>
    requires i <= |slots|
    decreases |slots| - i
  {
    if i == |slots| then {} else (if slots[i].Some? then {slots[i].value} else {}) + Found(slots, i + 1)
  }

  lemma {:induction false} FoundExactly(slots: seq<Option<nat>>, i: nat, addr: nat)
    requires i <= |slots|
    ensures addr in Found(slots, i) <==> exists j :: i <= j < |slots| && slots[j] == Some(addr)
    decreases |slots| - i
  {
    if i < |slots| {
      FoundExactly(slots, i + 1, addr);
    }
  }

  ghost predicate AtSlot(s: State, r: nat, i: nat) {
    && s.col.pc == Scanning(r, i) && r < s.col.limit <= |s.thr|
    && |s.thr[r].sig.slots| == SLOTS && i <= SLOTS
  }

  lemma SlotStep(s: State, r: nat, i: nat)
    requires AtSlot(s, r, i) && i < SLOTS
    ensures Enabled(s, Collect)
    ensures var a := s.thr[r].sig.slots[i];
      Do(s, Collect) == s.(col := s.col.(pc := Scanning(r, i + 1),
                                         hazards := s.col.hazards + if a.Some? then {a.value} else {}))
  {
    assert s.col.hazards + {} == s.col.hazards;
  }

  /** The remaining slots of a record, one step each. */
  lemma {:induction false} SlotsSteps(s: State, r: nat, i: nat, n: nat) returns (s': State)
    requires AtSlot(s, r, i) && n == SLOTS - i
    ensures Collects(s, n, s')
    ensures s' == s.(col := s.col.(pc := Scanning(r, SLOTS), hazards := s.col.hazards + Found(s.thr[r].sig.slots, i)))
    decreases n
  {
    if n > 0 {
      SlotStep(s, r, i);
      CollectsOne(s);
      s' := SlotsSteps(Do(s, Collect), r, i + 1, n - 1);
      CollectsMore(s, 1, Do(s, Collect), n - 1, s');
      var a := s.thr[r].sig.slots[i];
      assert s.col.hazards + (if a.Some? then {a.value} else {}) + Found(s.thr[r].sig.slots, i + 1)
          == s.col.hazards + Found(s.thr[r].sig.slots, i);
    } else {
      CollectsNone(s);
      s' := s;
      assert s.col.hazards + {} == s.col.hazards;
    }
  }

  /** A record whose flag is off is left for the next one; while it is on, the collector polls. */
  lemma FlagStep(s: State, r: nat)
    requires AtSlot(s, r, SLOTS)
    ensures Enabled(s, Collect)
    ensures !s.thr[r].sig.flag ==> Do(s, Collect) == s.(col := s.col.(pc := Scanning(r + 1, 0)))
    ensures s.thr[r].sig.flag ==> Do(s, Collect) == s
  {
  }

  lemma RecordSteps(s: State, r: nat, n: nat) returns (s': State)
    requires AtSlot(s, r, 0) && !s.thr[r].sig.flag && n == SLOTS + 1
    ensures Collects(s, n, s')
    ensures s' == s.(col := s.col.(pc := Scanning(r + 1, 0), hazards := s.col.hazards + Found(s.thr[r].sig.slots, 0)))
  {
    var m := SlotsSteps(s, r, 0, n - 1);
    FlagStep(m, r);
    s' := Do(m, Collect);
    CollectsOne(m);
    CollectsMore(s, n - 1, m, 1, s');
  }

  // ----- all records

  /** The addresses in the slots of the records from `r` up to `limit`. */
  function FoundFrom(thr: seq<Thread>, r: nat, limit: nat): set<nat>
    requires r <= limit <= |thr|
    decreases limit - r
  {
    if r == limit then {} else Found(thr[r].sig.slots, 0) + FoundFrom(thr, r + 1, limit)
  }

  lemma {:induction false} FoundFromExactly(thr: seq<Thread>, r: nat, limit: nat, addr: nat)
    requires r <= limit <= |thr|
    ensures addr in FoundFrom(thr, r, limit) <==>
      exists t, j :: r <= t < limit && 0 <= j < |thr[t].sig.slots| && thr[t].sig.slots[j] == Some(addr)
    decreases limit - r
  {
    if r < limit {
      FoundExactly(thr[r].sig.slots, 0, addr);
      FoundFromExactly(thr, r + 1, limit, addr);
    }
  }

  /** Nobody below `limit` is inside a critical section, as far as memory shows. */
  ghost predicate Silent(s: State) {
    && s.col.limit <= |s.thr|
    && forall t :: 0 <= t < s.col.limit ==> |s.thr[t].sig.slots| == SLOTS && !s.thr[t].sig.flag
  }

  lemma LastStep(s: State) returns (s': State)
    requires s.col.pc == Scanning(s.col.limit, 0)
    ensures Collects(s, 1, s') && s' == s.(col := s.col.(pc := Choosing))
  {
    CollectsOne(s);
    s' := Do(s, Collect);
  }

  /** The steps for `k` records, and the last one. */
  function StepsFor(k: nat, each: nat): (n: nat)
    ensures n == k * each + 1
  {
    if k == 0 then 1 else each + StepsFor(k - 1, each)
  }

  lemma {:induction false} RecordsSteps(s: State, r: nat, k: nat, each: nat) returns (s': State)
    requires Silent(s) && s.col.pc == Scanning(r, 0) && r + k == s.col.limit && each == SLOTS + 1
    ensures Collects(s, StepsFor(k, each), s')
    ensures s' == s.(col := s.col.(pc := Choosing, hazards := s.col.hazards + FoundFrom(s.thr, r, s.col.limit)))
    decreases k
  {
    if k == 0 {
      assert s.col.hazards + {} == s.col.hazards;
      s' := LastStep(s);
    } else {
      var found := Found(s.thr[r].sig.slots, 0);
      var m := RecordSteps(s, r, each);
      s' := RecordsSteps(m, r + 1, k - 1, each);
      CollectsMore(s, each, m, StepsFor(k - 1, each), s');
      assert s.col.hazards + found + FoundFrom(s.thr, r + 1, s.col.limit)
          == s.col.hazards + (found + FoundFrom(s.thr, r + 1, s.col.limit));
    }
  }

  /** A traversal begins without hazards. */
  predicate BeginsEmpty(s: State) { s.col.pc == Scanning(0, 0) ==> s.col.hazards == {} }

  lemma {:induction false} RunBeginsEmpty(run: seq<State>, k: nat)
    requires IsRun(run) && k < |run|
    ensures BeginsEmpty(run[k])
  {
    if k > 0 {
      RunBeginsEmpty(run, k - 1);
      var a := StepOf(run, k);
    }
  }

  /** Some slot of a record that the traversal looks at contains `addr`. */
  ghost predicate Signalled(s: State, addr: nat) {
    exists t, j :: 0 <= t < s.col.limit && t < |s.thr| && 0 <= j < |s.thr[t].sig.slots| && s.thr[t].sig.slots[j] == Some(addr)
  }

  lemma ReachableSlots(s: State)
    requires Reachable(s)
    ensures s.col.limit <= |s.thr| && BeginsEmpty(s) && forall t :: 0 <= t < |s.thr| ==> |s.thr[t].sig.slots| == SLOTS
  {
    ReachableInv(s);
    var run :| IsRun(run) && run[|run| - 1] == s;
    RunBeginsEmpty(run, |run| - 1);
    forall t | 0 <= t < |s.thr| ensures |s.thr[t].sig.slots| == SLOTS {
      assert ThreadOk(s.heap.objs, s.thr[t]);
    }
  }

  lemma WholeTraversal(s: State, each: nat) returns (s': State)
    requires Silent(s) && s.col.pc == Scanning(0, 0) && BeginsEmpty(s) && each == SLOTS + 1
    ensures Collects(s, s.col.limit * each + 1, s')
    ensures s' == s.(col := s.col.(pc := Choosing, hazards := s'.col.hazards))
    ensures forall addr :: addr in s'.col.hazards <==> Signalled(s, addr)
  {
    s' := RecordsSteps(s, 0, s.col.limit, each);
    forall addr ensures addr in s'.col.hazards <==> Signalled(s, addr) {
      FoundFromExactly(s.thr, 0, s.col.limit, addr);
    }
  }

  /**
   From the fence on, with one step for each slot and one for each flag and one to finish, the
   traversal comes to its end, and the hazards it has found are exactly the addresses in the
   slots of the records it was to look at.
   */
  lemma TraversalEnds(s: State) returns (s': State)
    requires Reachable(s) && s.col.pc == Scanning(0, 0)
    requires forall t :: 0 <= t < s.col.limit && t < |s.thr| ==> !s.thr[t].sig.flag
    ensures Collects(s, s.col.limit * (SLOTS + 1) + 1, s')
    ensures s' == s.(col := s.col.(pc := Choosing, hazards := s'.col.hazards))
    ensures forall addr :: addr in s'.col.hazards <==> Signalled(s, addr)
  {
    ReachableSlots(s);
    s' := WholeTraversal(s, SLOTS + 1);
  }
}
