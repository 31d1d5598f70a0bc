/**
 The sharded read-write lock as a step system. A reader locks one shard, a writer locks all of
 them in order. Each step is one lock operation of one thread; a step that has to wait is not
 enabled.
 */
module ShardedRwLock {
  import opened Options

  datatype Lock = Lock(writer: Option<nat>, readers: set<nat>)

  /** What a thread is doing with the lock. It holds at most one guard. */
  datatype Pc =
    | Idle
    | WaitRead(j: nat)      // in `read`, at shard `j`
    | Reading(j: nat)       // has a read guard
    | Acquiring(k: nat)     // in `write`, has locked the shards below `k`
    | Writing               // has a write guard
    | Releasing(k: nat)     // dropping a write guard, has released the shards below `k`

  /** With `polite` set, a reader also waits for a writer that waits at its shard. */
  datatype State = State(locks: seq<Lock>, pcs: seq<Pc>, data: int, polite: bool)

  datatype Step =
    | BeginRead(t: nat, j: nat)
    | BeginWrite(t: nat)
    | TryRead(t: nat, j: nat)
    | WriteData(t: nat, v: int)
    | Go(t: nat)            // the next lock operation of a call, or of a guard's drop

  predicate Init(s: State) {
    && |s.locks| > 0
    && (forall j :: 0 <= j < |s.locks| ==> s.locks[j] == Lock(None, {}))
    && (forall t :: 0 <= t < |s.pcs| ==> s.pcs[t] == Idle)
  }

  predicate CanRead(s: State, j: nat) {
    && j < |s.locks| && s.locks[j].writer.None?
    && (s.polite ==> Acquiring(j) !in s.pcs)
  }

  predicate CanWrite(s: State, k: nat) {
    k < |s.locks| && s.locks[k].writer.None? && s.locks[k].readers == {}
  }

  predicate Enabled(s: State, a: Step) {
    a.t < |s.pcs| &&
    match a
    case BeginRead(t, j) => s.pcs[t].Idle? && j < |s.locks|
    case BeginWrite(t) => s.pcs[t].Idle?
    case TryRead(t, j) => s.pcs[t].Idle? && j < |s.locks|
    case WriteData(t, _) => s.pcs[t].Writing?
    case Go(t) =>
      match s.pcs[t]
      case Idle => false
      case WaitRead(j) => CanRead(s, j)
      case Reading(j) => j < |s.locks|
      case Acquiring(k) => CanWrite(s, k)
      case Writing => true
      case Releasing(k) => k < |s.locks|
  }

  function SetPc(s: State, t: nat, pc: Pc): State
    requires t < |s.pcs|
  {
    s.(pcs := s.pcs[t := pc])
  }

  function SetLock(s: State, j: nat, l: Lock): State
    requires j < |s.locks|
  {
    s.(locks := s.locks[j := l])
  }

  function AddReader(s: State, t: nat, j: nat): State
    requires t < |s.pcs| && j < |s.locks|
  {
    SetPc(SetLock(s, j, s.locks[j].(readers := s.locks[j].readers + {t})), t, Reading(j))
  }

  function Do(s: State, a: Step): State
    requires Enabled(s, a)
  {
    match a
    case BeginRead(t, j) => SetPc(s, t, WaitRead(j))
    case BeginWrite(t) => SetPc(s, t, Acquiring(0))
    case TryRead(t, j) => if CanRead(s, j) then AddReader(s, t, j) else s
    case WriteData(t, v) => s.(data := v)
    case Go(t) =>
      match s.pcs[t]
      case WaitRead(j) => AddReader(s, t, j)
      case Reading(j) =>
        SetPc(SetLock(s, j, s.locks[j].(readers := s.locks[j].readers - {t})), t, Idle)
      case Acquiring(k) =>
        SetPc(SetLock(s, k, s.locks[k].(writer := Some(t))), t,
              if k + 1 == |s.locks| then Writing else Acquiring(k + 1))
      case Writing => SetPc(s, t, Releasing(0))
      case Releasing(k) =>
        SetPc(SetLock(s, k, s.locks[k].(writer := None)), t,
              if k + 1 == |s.locks| then Idle else Releasing(k + 1))
  }

  ghost predicate Next(s: State, s': State) { exists a :: Enabled(s, a) && s' == Do(s, a) }

  ghost predicate NextAt(run: seq<State>, i: nat)
    requires i + 1 < |run|
  {
    Next(run[i], run[i + 1])
  }

  ghost predicate IsRun(run: seq<State>) {
    run != [] && Init(run[0]) && forall i {:trigger NextAt(run, i)} :: 0 <= i < |run| - 1 ==> NextAt(run, i)
  }

  ghost predicate Reachable(s: State) { exists run :: IsRun(run) && run[|run| - 1] == s }

  // ----- the invariant

  predicate HoldsWrite(pc: Pc, j: nat) {
    match pc
    case Acquiring(k) => j < k
    case Writing => true
    case Releasing(k) => j >= k
    case _ => false
  }

  /** Lock `j` knows exactly what thread `t` holds of it. */
  predicate HoldOk(s: State, j: nat, t: nat)
    requires j < |s.locks| && t < |s.pcs|
  {
    && (s.locks[j].writer == Some(t) <==> HoldsWrite(s.pcs[t], j))
    && (t in s.locks[j].readers <==> s.pcs[t] == Reading(j))
  }

  predicate LockOk(s: State, j: nat)
    requires j < |s.locks|
  {
    && (s.locks[j].writer.Some? ==> s.locks[j].readers == {} && s.locks[j].writer.value < |s.pcs|)
    && (forall t :: t in s.locks[j].readers ==> t < |s.pcs|)
  }

  predicate PcOk(s: State, t: nat)
    requires t < |s.pcs|
  {
    match s.pcs[t]
    case WaitRead(j) => j < |s.locks|
    case Reading(j) => j < |s.locks|
    case Acquiring(k) => k < |s.locks|
    case Releasing(k) => k < |s.locks|
    case _ => true
  }

  ghost predicate Inv(s: State) {
    && |s.locks| > 0
    && (forall j {:trigger LockOk(s, j)} :: 0 <= j < |s.locks| ==> LockOk(s, j))
    && (forall t {:trigger PcOk(s, t)} :: 0 <= t < |s.pcs| ==> PcOk(s, t))
    && (forall j, t {:trigger HoldOk(s, j, t)} :: 0 <= j < |s.locks| && 0 <= t < |s.pcs| ==> HoldOk(s, j, t))
  }

  lemma KeepsHold(s: State, a: Step, j: nat, t: nat)
    requires Inv(s) && Enabled(s, a) && j < |s.locks| && t < |s.pcs|
    ensures |Do(s, a).locks| == |s.locks| && |Do(s, a).pcs| == |s.pcs| && HoldOk(Do(s, a), j, t)
  {
    assert HoldOk(s, j, t) && HoldOk(s, j, a.t) && LockOk(s, j);
  }

  lemma KeepsLock(s: State, a: Step, j: nat)
    requires Inv(s) && Enabled(s, a) && j < |s.locks|
    ensures |Do(s, a).locks| == |s.locks| && LockOk(Do(s, a), j)
  {
    assert LockOk(s, j);
  }

  lemma KeepsPc(s: State, a: Step, t: nat)
    requires Inv(s) && Enabled(s, a) && t < |s.pcs|
    ensures |Do(s, a).pcs| == |s.pcs| && PcOk(Do(s, a), t)
  {
    assert PcOk(s, t);
  }

  lemma KeepsInv(s: State, a: Step)
    requires Inv(s) && Enabled(s, a)
    ensures Inv(Do(s, a))
  {
    var s' := Do(s, a);
    KeepsPc(s, a, a.t);
    KeepsLock(s, a, 0);
    forall j | 0 <= j < |s'.locks| ensures LockOk(s', j) {
      KeepsLock(s, a, j);
    }
    forall t | 0 <= t < |s'.pcs| ensures PcOk(s', t) {
      KeepsPc(s, a, t);
    }
    forall j, t | 0 <= j < |s'.locks| && 0 <= t < |s'.pcs| ensures HoldOk(s', j, t) {
      KeepsHold(s, a, j, t);
    }
  }

  lemma {:induction false} RunInv(run: seq<State>)
    requires IsRun(run)
    ensures Inv(run[|run| - 1])
  {
    if |run| > 1 {
      var prev := run[..|run| - 1];
      forall i | 0 <= i < |prev| - 1 ensures NextAt(prev, i) {
        assert NextAt(run, i);
      }
      assert IsRun(prev);
      RunInv(prev);
      assert NextAt(run, |run| - 2);
      var a :| Enabled(run[|run| - 2], a) && run[|run| - 1] == Do(run[|run| - 2], a);
      KeepsInv(run[|run| - 2], a);
    }
  }

  lemma ReachableInv(s: State)
    requires Reachable(s)
    ensures Inv(s)
  {
    var run :| IsRun(run) && run[|run| - 1] == s;
    RunInv(run);
  }

  // ----- exclusion

  /** A thread with a write guard is the only one with a guard. */
  lemma WriterExcludes(s: State, t: nat, u: nat)
    requires Reachable(s) && t < |s.pcs| && u < |s.pcs| && t != u && s.pcs[t].Writing?
    ensures !s.pcs[u].Writing? && !s.pcs[u].Reading?
  {
    ReachableInv(s);
    assert HoldOk(s, 0, t) && HoldOk(s, 0, u);
    assert PcOk(s, u);
    forall j | 0 <= j < |s.locks| ensures s.pcs[u] != Reading(j) {
      assert HoldOk(s, j, t) && HoldOk(s, j, u) && LockOk(s, j);
    }
  }

  /** What a reader sees does not change while it has its guard. */
  lemma ReadersSeeStableData(s: State, a: Step, u: nat)
    requires Reachable(s) && Enabled(s, a) && u < |s.pcs| && s.pcs[u].Reading?
    ensures Do(s, a).data == s.data
  {
    if a.WriteData? {
      WriterExcludes(s, a.t, u);
    }
  }

  /** Nor does what a writer sees, unless it writes itself. */
  lemma WritersSeeTheirOwnData(s: State, a: Step, u: nat)
    requires Reachable(s) && Enabled(s, a) && u < |s.pcs| && s.pcs[u].Writing? && a != Go(u)
    ensures Do(s, a).pcs[u].Writing?
    ensures Do(s, a).data == if a.WriteData? && a.t == u then a.v else s.data
  {
    if a.WriteData? && a.t != u {
      WriterExcludes(s, u, a.t);
    }
  }

  // ----- no deadlock

  /** Of the writers in `write`, one has got farthest. */
  lemma {:induction false} FarthestWriter(pcs: seq<Pc>) returns (t: nat)
    requires exists u :: 0 <= u < |pcs| && pcs[u].Acquiring?
    ensures t < |pcs| && pcs[t].Acquiring?
    ensures forall u :: 0 <= u < |pcs| && pcs[u].Acquiring? ==> pcs[u].k <= pcs[t].k
  {
    var n := |pcs| - 1;
    if exists u :: 0 <= u < n && pcs[u].Acquiring? {
      var u :| 0 <= u < n && pcs[u].Acquiring?;
      assert pcs[..n][u].Acquiring?;
      t := FarthestWriter(pcs[..n]);
      forall u | 0 <= u < n && pcs[u].Acquiring? ensures pcs[u].k <= pcs[t].k {
        assert pcs[..n][u].Acquiring?;
      }
      if pcs[n].Acquiring? && pcs[n].k > pcs[t].k {
        t := n;
      }
    } else {
      t := n;
    }
  }

  /** Writers that wait, wait for shards beyond those that they hold. */
  lemma FarthestCanGo(s: State, t: nat)
    requires Inv(s) && t < |s.pcs| && s.pcs[t].Acquiring?
    requires forall u :: 0 <= u < |s.pcs| ==> s.pcs[u].Idle? || s.pcs[u].WaitRead? || s.pcs[u].Acquiring?
    requires forall u :: 0 <= u < |s.pcs| && s.pcs[u].Acquiring? ==> s.pcs[u].k <= s.pcs[t].k
    ensures Enabled(s, Go(t))
  {
    var k := s.pcs[t].k;
    assert PcOk(s, t) && LockOk(s, k);
    forall u | 0 <= u < |s.pcs| ensures s.locks[k].writer != Some(u) && u !in s.locks[k].readers {
      assert HoldOk(s, k, u);
    }
  }

  /** Unless every thread is idle, some thread in a call or with a guard can take its next step. */
  lemma NoDeadlock(s: State)
    requires Reachable(s) && exists t :: 0 <= t < |s.pcs| && !s.pcs[t].Idle?
    ensures exists t :: 0 <= t < |s.pcs| && Enabled(s, Go(t))
  {
    ReachableInv(s);
    if t :| 0 <= t < |s.pcs| && (s.pcs[t].Reading? || s.pcs[t].Writing? || s.pcs[t].Releasing?) {
      assert PcOk(s, t) && Enabled(s, Go(t));
    } else if u :| 0 <= u < |s.pcs| && s.pcs[u].Acquiring? {
      var t := FarthestWriter(s.pcs);
      FarthestCanGo(s, t);
    } else {
      var t :| 0 <= t < |s.pcs| && !s.pcs[t].Idle?;
      var j := s.pcs[t].j;
      assert PcOk(s, t) && LockOk(s, j);
      forall u | 0 <= u < |s.pcs| ensures s.locks[j].writer != Some(u) {
        assert HoldOk(s, j, u);
      }
      assert Enabled(s, Go(t));
    }
  }

  /** The lock operations that a thread has left until it is idle. */
  function Left(pc: Pc, shards: nat): int {
    match pc
    case Idle => 0
    case WaitRead(_) => 2
    case Reading(_) => 1
    case Acquiring(k) => 2 * shards + 1 - k
    case Writing => shards + 1
    case Releasing(k) => shards - k
  }

  function TotalLeft(pcs: seq<Pc>, shards: nat): int {
    if pcs == [] then 0 else TotalLeft(pcs[..|pcs| - 1], shards) + Left(pcs[|pcs| - 1], shards)
  }

  lemma {:induction false} TotalLeftUpdate(pcs: seq<Pc>, shards: nat, t: nat, pc: Pc)
    requires t < |pcs|
    ensures TotalLeft(pcs[t := pc], shards) == TotalLeft(pcs, shards) - Left(pcs[t], shards) + Left(pc, shards)
  {
    var n := |pcs| - 1;
    if t < n {
      TotalLeftUpdate(pcs[..n], shards, t, pc);
      assert pcs[t := pc][..n] == pcs[..n][t := pc];
    } else {
      assert pcs[t := pc][..n] == pcs[..n];
    }
  }

  lemma {:induction false} TotalLeftNotNegative(s: State, n: nat)
    requires Inv(s) && n <= |s.pcs|
    ensures TotalLeft(s.pcs[..n], |s.locks|) >= 0
    ensures TotalLeft(s.pcs[..n], |s.locks|) == 0 ==> forall t :: 0 <= t < n ==> s.pcs[t].Idle?
  {
    if n > 0 {
      assert PcOk(s, n - 1);
      assert s.pcs[..n][..n - 1] == s.pcs[..n - 1];
      TotalLeftNotNegative(s, n - 1);
    }
  }

  /** A schedule that starts no new call: threads go on with their calls and drop their guards. */
  ghost predicate Drains(s: State, schedule: seq<nat>, s': State)
    decreases |schedule|
  {
    if schedule == [] then s' == s
    else Enabled(s, Go(schedule[0])) && Drains(Do(s, Go(schedule[0])), schedule[1..], s')
  }

  /**
   When no new call starts, everything ends within a known number of steps, whatever the schedule;
   and a schedule that cannot go on has let every call complete and every guard drop.
   */
  lemma {:induction false} EveryCallCompletes(s: State, schedule: seq<nat>, s': State)
    requires Reachable(s) && Drains(s, schedule, s')
    ensures Reachable(s') && |s'.pcs| == |s.pcs| && |s'.locks| == |s.locks|
    ensures TotalLeft(s'.pcs, |s.locks|) == TotalLeft(s.pcs, |s.locks|) - |schedule| >= 0
    ensures (forall t :: 0 <= t < |s'.pcs| ==> !Enabled(s', Go(t))) <==>
            |schedule| == TotalLeft(s.pcs, |s.locks|)
    decreases |schedule|
  {
    if schedule == [] {
      ReachableInv(s);
      TotalLeftNotNegative(s, |s.pcs|);
      assert s.pcs[..|s.pcs|] == s.pcs;
      if t :| 0 <= t < |s.pcs| && Enabled(s, Go(t)) {
        GoUsesOneUp(s, t);
        KeepsInv(s, Go(t));
        var s1 := Do(s, Go(t));
        TotalLeftNotNegative(s1, |s1.pcs|);
        assert s1.pcs[..|s1.pcs|] == s1.pcs;
      } else if t :| 0 <= t < |s.pcs| && !s.pcs[t].Idle? {
        NoDeadlock(s);
      } else {
        AllIdle(s.pcs, |s.locks|);
      }
    } else {
      GoUsesOneUp(s, schedule[0]);
      EveryCallCompletes(Do(s, Go(schedule[0])), schedule[1..], s');
    }
  }

  lemma {:induction false} AllIdle(pcs: seq<Pc>, shards: nat)
    requires forall t :: 0 <= t < |pcs| ==> pcs[t].Idle?
    ensures TotalLeft(pcs, shards) == 0
  {
    if pcs != [] {
      AllIdle(pcs[..|pcs| - 1], shards);
    }
  }

  lemma ReachableStep(s: State, a: Step)
    requires Reachable(s) && Enabled(s, a)
    ensures Reachable(Do(s, a))
  {
    var run :| IsRun(run) && run[|run| - 1] == s;
    assert Next(s, Do(s, a));
    var r := run + [Do(s, a)];
    forall i | 0 <= i < |r| - 1 ensures NextAt(r, i) {
      if i < |run| - 1 {
        assert NextAt(run, i);
      } else {
        assert r[i] == s && r[i + 1] == Do(s, a);
      }
    }
    assert IsRun(r);
  }

  lemma GoUsesOneUp(s: State, t: nat)
    requires Reachable(s) && t < |s.pcs| && Enabled(s, Go(t))
    ensures var s' := Do(s, Go(t));
      && Reachable(s') && |s'.pcs| == |s.pcs| && |s'.locks| == |s.locks|
      && TotalLeft(s'.pcs, |s.locks|) == TotalLeft(s.pcs, |s.locks|) - 1
  {
    ReachableStep(s, Go(t));
    GoCounts(s, t);
  }

  lemma GoCounts(s: State, t: nat)
    requires t < |s.pcs| && Enabled(s, Go(t))
    ensures var s' := Do(s, Go(t));
      && |s'.pcs| == |s.pcs| && |s'.locks| == |s.locks|
      && TotalLeft(s'.pcs, |s.locks|) == TotalLeft(s.pcs, |s.locks|) - 1
  {
    var pc := Do(s, Go(t)).pcs[t];
    TotalLeftUpdate(s.pcs, |s.locks|, t, pc);
    assert Left(pc, |s.locks|) == Left(s.pcs[t], |s.locks|) - 1;
    assert Do(s, Go(t)).pcs == s.pcs[t := pc];
  }

  // ----- what an undisturbed call returns

  /** Nobody holds shard `j` for writing and, if readers are polite, nobody waits to. */
  ghost predicate NoWriterAt(s: State, j: nat) {
    forall u :: 0 <= u < |s.pcs| ==> !HoldsWrite(s.pcs[u], j) && (s.polite ==> s.pcs[u] != Acquiring(j))
  }

  lemma CanReadExactly(s: State, j: nat)
    requires Reachable(s) && j < |s.locks|
    ensures CanRead(s, j) <==> NoWriterAt(s, j)
  {
    ReachableInv(s);
    assert LockOk(s, j);
    forall u | 0 <= u < |s.pcs| ensures s.locks[j].writer == Some(u) <==> HoldsWrite(s.pcs[u], j) {
      assert HoldOk(s, j, u);
    }
  }

  /** `try_read` returns a guard exactly if no writer is in the way, and never waits. */
  lemma TryReadCall(s: State, t: nat, j: nat)
    requires Reachable(s) && t < |s.pcs| && s.pcs[t].Idle? && j < |s.locks|
    ensures var s' := Do(s, TryRead(t, j));
      && Enabled(s, TryRead(t, j)) && s'.data == s.data
      && s'.pcs == s.pcs[t := if NoWriterAt(s, j) then Reading(j) else Idle]
  {
    CanReadExactly(s, j);
    assert s.pcs[t := Idle] == s.pcs;
  }

  /** `read` begins, waits exactly for the writers in the way, and returns a guard; dropping it ends it. */
  lemma ReadCall(s: State, t: nat, j: nat)
    requires Reachable(s) && t < |s.pcs| && s.pcs[t].Idle? && j < |s.locks|
    ensures Enabled(s, BeginRead(t, j)) && Do(s, BeginRead(t, j)).pcs == s.pcs[t := WaitRead(j)]
    ensures var s1 := Do(s, BeginRead(t, j));
      && (Enabled(s1, Go(t)) <==> NoWriterAt(s, j))
      && (NoWriterAt(s, j) ==>
            var s2 := Do(s1, Go(t));
            && s2.pcs == s.pcs[t := Reading(j)]
            && Enabled(s2, Go(t)) && Do(s2, Go(t)).pcs == s.pcs && Do(s2, Go(t)).data == s.data)
  {
    var s1 := Do(s, BeginRead(t, j));
    ReachableStep(s, BeginRead(t, j));
    CanReadExactly(s1, j);
    forall u | 0 <= u < |s.pcs| ensures HoldsWrite(s1.pcs[u], j) == HoldsWrite(s.pcs[u], j) {}
    assert NoWriterAt(s1, j) <==> NoWriterAt(s, j) by {
      forall u | 0 <= u < |s.pcs| ensures (s1.pcs[u] == Acquiring(j)) == (s.pcs[u] == Acquiring(j)) {}
    }
    assert s.pcs[t := Idle] == s.pcs;
  }

  ghost predicate OthersIdle(s: State, t: nat) {
    t < |s.pcs| && forall u :: 0 <= u < |s.pcs| && u != t ==> s.pcs[u].Idle?
  }

  /** The `k`th lock of a writer that nobody else is in the way of. */
  lemma WriteStep(s: State, t: nat, k: nat)
    requires Reachable(s) && OthersIdle(s, t) && s.pcs[t] == Acquiring(k)
    ensures k < |s.locks| && Enabled(s, Go(t))
    ensures Do(s, Go(t)).pcs == s.pcs[t := if k + 1 == |s.locks| then Writing else Acquiring(k + 1)]
    ensures |Do(s, Go(t)).locks| == |s.locks| && Do(s, Go(t)).data == s.data
  {
    ReachableInv(s);
    assert PcOk(s, t) && LockOk(s, k);
    forall u | 0 <= u < |s.pcs| ensures s.locks[k].writer != Some(u) && u !in s.locks[k].readers {
      assert HoldOk(s, k, u);
    }
  }

  lemma {:induction false} WriteSteps(s: State, t: nat, k: nat, left: nat) returns (s': State)
    requires Reachable(s) && OthersIdle(s, t) && s.pcs[t] == Acquiring(k) && k + left == |s.locks|
    ensures Reachable(s') && Drains(s, Times(t, left), s')
    ensures s'.pcs == s.pcs[t := Writing] && s'.data == s.data && |s'.locks| == |s.locks|
    decreases left
  {
    WriteStep(s, t, k);
    ReachableStep(s, Go(t));
    var m := Do(s, Go(t));
    if left == 1 {
      s' := m;
      assert Drains(m, [], s') && Times(t, 1) == [t];
    } else {
      s' := WriteSteps(m, t, k + 1, left - 1);
      assert m.pcs[t := Writing] == s.pcs[t := Writing];
    }
  }

  function Times(t: nat, n: nat): (r: seq<nat>)
    ensures |r| == n
  {
    if n == 0 then [] else [t] + Times(t, n - 1)
  }

  /** `write` returns a guard after locking every shard once, when nobody else uses the lock. */
  lemma WriteCall(s: State, t: nat) returns (s': State)
    requires Reachable(s) && OthersIdle(s, t) && s.pcs[t].Idle?
    ensures Enabled(s, BeginWrite(t)) && Drains(Do(s, BeginWrite(t)), Times(t, |s.locks|), s')
    ensures Reachable(s') && s'.pcs == s.pcs[t := Writing] && s'.data == s.data
  {
    ReachableStep(s, BeginWrite(t));
    ReachableInv(s);
    s' := WriteSteps(Do(s, BeginWrite(t)), t, 0, |s.locks|);
    assert s.pcs[t := Acquiring(0)][t := Writing] == s.pcs[t := Writing];
  }

  lemma {:induction false} ReleaseSteps(s: State, t: nat, k: nat, left: nat) returns (s': State)
    requires Reachable(s) && t < |s.pcs| && s.pcs[t] == Releasing(k) && k + left == |s.locks| && left > 0
    ensures Reachable(s') && Drains(s, Times(t, left), s')
    ensures s'.pcs == s.pcs[t := Idle] && s'.data == s.data && |s'.locks| == |s.locks|
    decreases left
  {
    ReachableStep(s, Go(t));
    var m := Do(s, Go(t));
    if left == 1 {
      s' := m;
      assert Drains(m, [], s') && Times(t, 1) == [t];
    } else {
      s' := ReleaseSteps(m, t, k + 1, left - 1);
      assert m.pcs[t := Idle] == s.pcs[t := Idle];
    }
  }

  /** Dropping a write guard never waits, and leaves no shard locked for writing. */
  lemma DropWriteCall(s: State, t: nat) returns (s': State)
    requires Reachable(s) && t < |s.pcs| && s.pcs[t].Writing?
    ensures Enabled(s, Go(t)) && Drains(Do(s, Go(t)), Times(t, |s.locks|), s')
    ensures s'.pcs == s.pcs[t := Idle] && s'.data == s.data && |s'.locks| == |s.locks|
    ensures forall j :: 0 <= j < |s.locks| ==> s'.locks[j].writer != Some(t)
  {
    ReachableInv(s);
    ReachableStep(s, Go(t));
    s' := ReleaseSteps(Do(s, Go(t)), t, 0, |s.locks|);
    assert s.pcs[t := Releasing(0)][t := Idle] == s.pcs[t := Idle];
    ReachableInv(s');
    forall j | 0 <= j < |s.locks| ensures s'.locks[j].writer != Some(t) {
      assert HoldOk(s', j, t);
    }
  }

  /** A writer writes what it wants. */
  lemma WriteDataCall(s: State, t: nat, v: int)
    requires t < |s.pcs| && s.pcs[t].Writing?
    ensures Enabled(s, WriteData(t, v)) && Do(s, WriteData(t, v)) == s.(data := v)
  {
  }
}
