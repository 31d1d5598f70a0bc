/**
 How threads come by their hazard records: a shared list that only grows, and a flag per record
 that a thread claims by an atomic swap and gives back when it ends.
 */
module HazardRecords {

  datatype Pc =
    | Outside               // has no record
    | Trying(i: nat)        // about to swap the flag of record `i`
    | Has(r: nat)

  datatype State = State(used: seq<bool>, pcs: seq<Pc>)

  datatype Step =
    | Begin(t: nat)
    | Probe(t: nat)
    | Push(t: nat)          // whenever the thread sees the list end
    | Release(t: nat)

  predicate Enabled(s: State, a: Step) {
    a.t < |s.pcs| &&
    match a
    case Begin(t) => s.pcs[t].Outside?
    case Probe(t) => s.pcs[t].Trying? && s.pcs[t].i < |s.used|
    case Push(t) => s.pcs[t].Trying?
    case Release(t) => s.pcs[t].Has? && s.pcs[t].r < |s.used|
  }

  function Do(s: State, a: Step): State
    requires Enabled(s, a)
  {
    match a
    case Begin(t) => s.(pcs := s.pcs[t := Trying(0)])
    case Probe(t) =>
      var i := s.pcs[t].i;
      State(s.used[i := true], s.pcs[t := if s.used[i] then Trying(i + 1) else Has(i)])
    case Push(t) => State(s.used + [true], s.pcs[t := Has(|s.used|)])
    case Release(t) => State(s.used[s.pcs[t].r := false], s.pcs[t := Outside])
  }

  /** The states that follow one another from an empty list, with any schedule. */
  ghost predicate IsRun(run: seq<State>, schedule: seq<Step>) {
    && |run| == |schedule| + 1
    && run[0].used == [] && (forall t :: 0 <= t < |run[0].pcs| ==> run[0].pcs[t].Outside?)
    && forall k :: 0 <= k < |schedule| ==> Enabled(run[k], schedule[k]) && run[k + 1] == Do(run[k], schedule[k])
  }

  /** How many of the first `n` threads have record `r`. */
  function Holders(pcs: seq<Pc>, r: nat): nat {
    if pcs == [] then 0
    else Holders(pcs[..|pcs| - 1], r) + if pcs[|pcs| - 1] == Has(r) then 1 else 0
  }

  /** A record that is in use has one holder, any other has none. */
  predicate RecordOk(s: State, r: nat) { Holders(s.pcs, r) == if r < |s.used| && s.used[r] then 1 else 0 }

  lemma {:induction false} HoldersUpdate(pcs: seq<Pc>, t: nat, pc: Pc, r: nat)
    requires t < |pcs|
    ensures Holders(pcs[t := pc], r)
         == Holders(pcs, r) - (if pcs[t] == Has(r) then 1 else 0) + if pc == Has(r) then 1 else 0
    ensures pcs[t] == Has(r) ==> Holders(pcs, r) >= 1
  {
    var n := |pcs| - 1;
    if t < n {
      HoldersUpdate(pcs[..n], t, pc, r);
      assert pcs[t := pc][..n] == pcs[..n][t := pc];
    } else {
      assert pcs[t := pc][..n] == pcs[..n];
    }
  }

  lemma {:induction false} NoHolders(pcs: seq<Pc>, r: nat)
    requires forall t :: 0 <= t < |pcs| ==> pcs[t].Outside?
    ensures Holders(pcs, r) == 0
  {
    if pcs != [] {
      NoHolders(pcs[..|pcs| - 1], r);
    }
  }

  lemma KeepsRecord(s: State, a: Step, r: nat)
    requires Enabled(s, a) && RecordOk(s, r)
    ensures RecordOk(Do(s, a), r)
  {
    HoldersUpdate(s.pcs, a.t, Do(s, a).pcs[a.t], r);
  }

  lemma {:induction false} RunKeepsRecord(run: seq<State>, schedule: seq<Step>, k: nat, r: nat)
    requires IsRun(run, schedule) && k < |run|
    ensures RecordOk(run[k], r) && |run[k].pcs| == |run[0].pcs|
  {
    if k == 0 {
      NoHolders(run[0].pcs, r);
    } else {
      RunKeepsRecord(run, schedule, k - 1, r);
      assert Enabled(run[k - 1], schedule[k - 1]);
      KeepsRecord(run[k - 1], schedule[k - 1], r);
    }
  }

  /** No two threads have the same record, and the flag of a thread's record is set, as `release` asserts. */
  lemma OneHolder(run: seq<State>, schedule: seq<Step>, k: nat, t: nat, u: nat)
    requires IsRun(run, schedule) && k < |run| && t < |run[k].pcs| && u < |run[k].pcs|
    requires run[k].pcs[t].Has?
    ensures run[k].pcs[t].r < |run[k].used| && run[k].used[run[k].pcs[t].r]
    ensures run[k].pcs[u] == run[k].pcs[t] ==> u == t
  {
    var r := run[k].pcs[t].r;
    RunKeepsRecord(run, schedule, k, r);
    HoldersUpdate(run[k].pcs, t, Outside, r);
    if u != t {
      HoldersUpdate(run[k].pcs[t := Outside], u, Outside, r);
    }
  }

  // ----- what an undisturbed call returns

  /** The steps of `acts` lead from `s` to `s'`. */
  ghost predicate Steps(s: State, acts: seq<Step>, s': State)
    decreases |acts|
  {
    if acts == [] then s' == s else Enabled(s, acts[0]) && Steps(Do(s, acts[0]), acts[1..], s')
  }

  function Probes(t: nat, n: nat): seq<Step> { if n == 0 then [] else [Probe(t)] + Probes(t, n - 1) }

  /** Going through used records changes nothing. */
  lemma {:induction false} PassesUsed(s: State, t: nat, i: nat, n: nat, more: seq<Step>, s': State)
    requires t < |s.pcs| && s.pcs[t] == Trying(i) && i + n <= |s.used|
    requires forall r :: i <= r < i + n ==> s.used[r]
    requires Steps(s.(pcs := s.pcs[t := Trying(i + n)]), more, s')
    ensures Steps(s, Probes(t, n) + more, s')
    decreases n
  {
    if n == 0 {
      assert s.pcs[t := Trying(i)] == s.pcs && Probes(t, 0) + more == more;
    } else {
      var m := Do(s, Probe(t));
      assert s.used[i := true] == s.used;
      assert m.pcs[t := Trying(i + n)] == s.pcs[t := Trying(i + n)];
      PassesUsed(m, t, i + 1, n - 1, more, s');
      assert (Probes(t, n) + more)[1..] == Probes(t, n - 1) + more;
    }
  }

  /** A thread gets the first record that is not used. */
  lemma ReuseCall(s: State, t: nat, r: nat) returns (s': State)
    requires t < |s.pcs| && s.pcs[t].Outside? && r < |s.used| && !s.used[r] && forall i :: 0 <= i < r ==> s.used[i]
    ensures Enabled(s, Begin(t)) && Steps(Do(s, Begin(t)), Probes(t, r) + [Probe(t)], s')
    ensures s' == State(s.used[r := true], s.pcs[t := Has(r)])
  {
    var m := Do(s, Begin(t));
    var u := m.(pcs := m.pcs[t := Trying(r)]);
    s' := Do(u, Probe(t));
    assert [Probe(t)][1..] == [] && Steps(s', [], s');
    assert Steps(u, [Probe(t)], s');
    PassesUsed(m, t, 0, r, [Probe(t)], s');
    assert s'.pcs == s.pcs[t := Has(r)];
  }

  /** If all are used, it adds one. */
  lemma PushCall(s: State, t: nat) returns (s': State)
    requires t < |s.pcs| && s.pcs[t].Outside? && forall i :: 0 <= i < |s.used| ==> s.used[i]
    ensures Enabled(s, Begin(t)) && Steps(Do(s, Begin(t)), Probes(t, |s.used|) + [Push(t)], s')
    ensures s' == State(s.used + [true], s.pcs[t := Has(|s.used|)])
  {
    var m := Do(s, Begin(t));
    var u := m.(pcs := m.pcs[t := Trying(|s.used|)]);
    s' := Do(u, Push(t));
    assert [Push(t)][1..] == [] && Steps(s', [], s');
    assert Steps(u, [Push(t)], s');
    PassesUsed(m, t, 0, |s.used|, [Push(t)], s');
    assert s'.pcs == s.pcs[t := Has(|s.used|)];
  }

  /** A thread that ends gives its record back, and only that one. */
  lemma ReleaseCall(run: seq<State>, schedule: seq<Step>, k: nat, t: nat)
    requires IsRun(run, schedule) && k < |run| && t < |run[k].pcs| && run[k].pcs[t].Has?
    ensures Enabled(run[k], Release(t)) && run[k].used[run[k].pcs[t].r]
    ensures Do(run[k], Release(t)).pcs == run[k].pcs[t := Outside]
    ensures Do(run[k], Release(t)).used == run[k].used[run[k].pcs[t].r := false]
  {
    OneHolder(run, schedule, k, t, t);
  }
}
