/** The lease every dispatched attempt holds, and the admission of legacy runs while a run group is
    active: the counters of the runtime against what they stand for. */
module DispatchLeases {
  import opened Statuses

  type Task = nat
  type Group = nat

  /** A semaphore: who waits for it and who holds it.  A task that was woken but has not run yet still
      counts as waiting. */
  datatype Gate = Gate(capacity: nat, waiting: set<Task>, holders: set<Task>)

  /** `gates` lists every semaphore ever made; the last one is `attempt_semaphore`. */
  datatype Runtime = Runtime(gates: seq<Gate>, active: int, peak: int, groups: set<Group>, activeGroups: int, admission: Option<bool>)

  const IDLE := Runtime([], 0, 0, {}, 0, None)

  datatype Step =
    | Dispatch(t: Task, capacity: nat)
    | Acquire(i: nat, t: Task)
    | GiveUp(i: nat, t: Task)
    | Leave(i: nat, t: Task)
    | AskAdmission
    | OpenGroup(g: Group)
    | CloseGroup(g: Group)

  predicate Known(r: Runtime, t: Task) {
    exists i :: 0 <= i < |r.gates| && (t in r.gates[i].waiting || t in r.gates[i].holders)
  }

  predicate Enabled(r: Runtime, s: Step) {
    match s
    case Dispatch(t, _) => !Known(r, t)
    case Acquire(i, t) => i < |r.gates| && t in r.gates[i].waiting && |r.gates[i].holders| < r.gates[i].capacity
    case GiveUp(i, t) => i < |r.gates| && t in r.gates[i].waiting
    case Leave(i, t) => i < |r.gates| && t in r.gates[i].holders
    case AskAdmission => true
    case OpenGroup(g) => g !in r.groups
    case CloseGroup(g) => g in r.groups
  }

  /** `_attempt_semaphore` refuses to resize while an attempt is active. */
  predicate Refused(r: Runtime, capacity: nat) {
    r.gates != [] && r.gates[|r.gates| - 1].capacity != capacity && r.active != 0
  }

  function Apply(r: Runtime, s: Step): Runtime
    requires Enabled(r, s)
  {
    match s
    case Dispatch(t, capacity) =>
      if Refused(r, capacity) then r
      else if r.gates == [] || r.gates[|r.gates| - 1].capacity != capacity
      then r.(gates := r.gates + [Gate(capacity, {t}, {})])
      else
        var n := |r.gates| - 1;
        r.(gates := r.gates[n := r.gates[n].(waiting := r.gates[n].waiting + {t})])
    case Acquire(i, t) =>
      var g := r.gates[i];
      r.(gates := r.gates[i := Gate(g.capacity, g.waiting - {t}, g.holders + {t})], active := r.active + 1,
         peak := if r.active + 1 > r.peak then r.active + 1 else r.peak)
    case GiveUp(i, t) => r.(gates := r.gates[i := r.gates[i].(waiting := r.gates[i].waiting - {t})])
    case Leave(i, t) => r.(gates := r.gates[i := r.gates[i].(holders := r.gates[i].holders - {t})], active := r.active - 1)
    case AskAdmission => if r.admission.None? then r.(admission := Some(true)) else r
    case OpenGroup(g) => r.(groups := r.groups + {g}, activeGroups := r.activeGroups + 1, admission := Some(false))
    case CloseGroup(g) =>
      r.(groups := r.groups - {g}, activeGroups := r.activeGroups - 1,
         admission := if r.activeGroups - 1 == 0 then Some(true) else r.admission)
  }

  function Holders(gates: seq<Gate>): nat {
    if gates == [] then 0 else Holders(gates[..|gates| - 1]) + |gates[|gates| - 1].holders|
  }

  /** The counters mean what they say. */
  predicate Counted(r: Runtime) {
    && r.active == Holders(r.gates) && r.active <= r.peak
    && (forall i :: 0 <= i < |r.gates| ==> |r.gates[i].holders| <= r.gates[i].capacity && r.gates[i].waiting !! r.gates[i].holders)
    && r.activeGroups == |r.groups|
    && (r.admission.None? ==> r.groups == {})
    && (r.admission.Some? ==> (r.admission.value <==> r.groups == {}))
  }

  lemma {:induction false} HoldersChange(gates: seq<Gate>, i: nat, g: Gate)
    requires i < |gates|
    ensures Holders(gates[i := g]) == Holders(gates) - |gates[i].holders| + |g.holders|
  {
    var n := |gates| - 1;
    if i < n {
      assert gates[i := g][..n] == gates[..n][i := g];
      HoldersChange(gates[..n], i, g);
    } else {
      assert gates[i := g][..n] == gates[..n];
    }
  }

  predicate GateOk(g: Gate) {
    |g.holders| <= g.capacity && g.waiting !! g.holders
  }

  /** Replacing one gate by a sound one keeps the books. */
  lemma GateReplaced(r: Runtime, i: nat, g: Gate, active: int, peak: int)
    requires Counted(r) && i < |r.gates| && GateOk(g) && active == r.active - |r.gates[i].holders| + |g.holders| && active <= peak
    ensures Counted(r.(gates := r.gates[i := g], active := active, peak := peak))
  {
    HoldersChange(r.gates, i, g);
  }

  lemma GateAdded(r: Runtime, g: Gate)
    requires Counted(r) && GateOk(g) && g.holders == {}
    ensures Counted(r.(gates := r.gates + [g]))
  {
    assert (r.gates + [g])[..|r.gates|] == r.gates;
  }

  lemma StepKeepsCounts(r: Runtime, s: Step)
    requires Counted(r) && Enabled(r, s)
    ensures Counted(Apply(r, s))
  {
    var next := Apply(r, s);
    match s {
      case Dispatch(t, capacity) =>
        if !Refused(r, capacity) {
          if r.gates == [] || r.gates[|r.gates| - 1].capacity != capacity {
            GateAdded(r, Gate(capacity, {t}, {}));
          } else {
            var n := |r.gates| - 1;
            assert t !in r.gates[n].holders;
            GateReplaced(r, n, next.gates[n], r.active, r.peak);
          }
        }
      case Acquire(i, t) => GateReplaced(r, i, next.gates[i], r.active + 1, next.peak);
      case GiveUp(i, t) => GateReplaced(r, i, next.gates[i], r.active, r.peak);
      case Leave(i, t) => GateReplaced(r, i, next.gates[i], r.active - 1, r.peak);
      case AskAdmission =>
      case OpenGroup(g) =>
      case CloseGroup(g) =>
        assert |r.groups - {g}| == |r.groups| - 1;
    }
  }

  predicate Runs(r: Runtime, steps: seq<Step>)
    decreases |steps|
  {
    steps == [] || (Enabled(r, steps[0]) && Runs(Apply(r, steps[0]), steps[1..]))
  }

  function After(r: Runtime, steps: seq<Step>): Runtime
    requires Runs(r, steps)
    decreases |steps|
  {
    if steps == [] then r else After(Apply(r, steps[0]), steps[1..])
  }

  // ---------- the bound ----------

  function Newest(r: Runtime): Gate
    requires r.gates != []
  {
    r.gates[|r.gates| - 1]
  }

  /** Nobody can come out of this gate any more. */
  predicate Drained(g: Gate) {
    g.waiting == {} || g.capacity == 0
  }

  /** Nobody holds a lease of a semaphore that was replaced. */
  predicate OldUnheld(r: Runtime) {
    forall i :: 0 <= i < |r.gates| - 1 ==> r.gates[i].holders == {}
  }

  predicate OldDrained(r: Runtime) {
    forall i :: 0 <= i < |r.gates| - 1 ==> Drained(r.gates[i])
  }

  /** The active attempts stay within the capacity that is in force. */
  predicate Within(r: Runtime) {
    if r.gates == [] then r.active == 0 else r.active <= Newest(r).capacity
  }

  /** The books, and the largest capacity ever asked for as a bound. */
  predicate Kept(r: Runtime, bound: nat) {
    && Counted(r) && OldUnheld(r) && OldDrained(r)
    && r.peak <= bound && forall i :: 0 <= i < |r.gates| ==> r.gates[i].capacity <= bound
  }

  lemma {:induction false} NoHolders(gates: seq<Gate>)
    requires forall i :: 0 <= i < |gates| ==> gates[i].holders == {}
    ensures Holders(gates) == 0
  {
    if gates != [] {
      NoHolders(gates[..|gates| - 1]);
    }
  }

  lemma {:induction false} HoldersBound(gates: seq<Gate>, i: nat)
    requires i < |gates|
    ensures |gates[i].holders| <= Holders(gates)
  {
    if i < |gates| - 1 {
      HoldersBound(gates[..|gates| - 1], i);
    }
  }

  lemma ActiveHoldsNewest(r: Runtime)
    requires Counted(r) && OldUnheld(r)
    ensures r.active == if r.gates == [] then 0 else |Newest(r).holders|
    ensures Within(r)
  {
    if r.gates != [] {
      NoHolders(r.gates[..|r.gates| - 1]);
    }
  }

  /** A dispatch that replaces the semaphore. */
  predicate Resizes(r: Runtime, s: Step) {
    s.Dispatch? && r.gates != [] && Newest(r).capacity != s.capacity && r.active == 0
  }

  /** A resize that finds nobody waiting, which its caller can check. */
  predicate Careful(r: Runtime, s: Step) {
    Resizes(r, s) ==> Drained(Newest(r))
  }

  predicate CarefulRun(r: Runtime, steps: seq<Step>)
    requires Runs(r, steps)
    decreases |steps|
  {
    steps == [] || (Careful(r, steps[0]) && CarefulRun(Apply(r, steps[0]), steps[1..]))
  }

  lemma ResizeKeepsOld(r: Runtime, s: Step, bound: nat)
    requires Kept(r, bound) && Resizes(r, s) && Drained(Newest(r)) && Enabled(r, s)
    ensures OldUnheld(Apply(r, s)) && OldDrained(Apply(r, s))
  {
    HoldersBound(r.gates, |r.gates| - 1);
    assert Newest(r).holders == {};
  }

  lemma StaysDrained(r: Runtime, s: Step)
    requires OldUnheld(r) && OldDrained(r) && Enabled(r, s) && !Resizes(r, s)
    ensures OldUnheld(Apply(r, s)) && OldDrained(Apply(r, s))
  {
  }

  lemma StepKeepsBound(r: Runtime, s: Step, bound: nat)
    requires Kept(r, bound) && Enabled(r, s) && Careful(r, s) && (s.Dispatch? ==> s.capacity <= bound)
    ensures Kept(Apply(r, s), bound)
  {
    var next := Apply(r, s);
    StepKeepsCounts(r, s);
    if Resizes(r, s) {
      ResizeKeepsOld(r, s, bound);
    } else {
      StaysDrained(r, s);
    }
    PeakKept(r, s, bound);
  }

  lemma PeakKept(r: Runtime, s: Step, bound: nat)
    requires Kept(r, bound) && Enabled(r, s) && (s.Dispatch? ==> s.capacity <= bound)
    requires Counted(Apply(r, s)) && OldUnheld(Apply(r, s))
    ensures Apply(r, s).peak <= bound
    ensures forall i :: 0 <= i < |Apply(r, s).gates| ==> Apply(r, s).gates[i].capacity <= bound
  {
    ActiveHoldsNewest(Apply(r, s));
  }

  /** Over any run with any resizes that find nobody waiting: the count of active attempts is the number of
      lease holders and never exceeds the capacity in force, the observed maximum never exceeds the largest
      capacity asked for, and legacy runs are admitted exactly while no run group is active. */
  lemma {:induction false} LeasesAreBounded(r: Runtime, steps: seq<Step>, bound: nat)
    requires Kept(r, bound) && Runs(r, steps) && CarefulRun(r, steps)
    requires forall i :: 0 <= i < |steps| && steps[i].Dispatch? ==> steps[i].capacity <= bound
    ensures Kept(After(r, steps), bound) && Within(After(r, steps))
    decreases |steps|
  {
    if steps == [] {
      ActiveHoldsNewest(r);
    } else {
      StepKeepsBound(r, steps[0], bound);
      LeasesAreBounded(Apply(r, steps[0]), steps[1..], bound);
    }
  }

  // ---------- exactly ----------

  /** Every dispatch asks for the same capacity. */
  predicate Constant(steps: seq<Step>, capacity: nat) {
    forall i :: 0 <= i < |steps| && steps[i].Dispatch? ==> steps[i].capacity == capacity
  }

  /** The bound holds whatever happens until the next resize. */
  ghost predicate Bounded(r: Runtime)
    requires r.gates != []
  {
    forall steps :: Runs(r, steps) && Constant(steps, Newest(r).capacity) ==> After(r, steps).active <= Newest(r).capacity
  }

  /** Without a resize the gates stay the same ones. */
  lemma {:induction false} SameGates(r: Runtime, steps: seq<Step>)
    requires r.gates != [] && Runs(r, steps) && Constant(steps, Newest(r).capacity)
    ensures CarefulRun(r, steps)
    ensures |After(r, steps).gates| == |r.gates| && Newest(After(r, steps)).capacity == Newest(r).capacity
    decreases |steps|
  {
    if steps != [] {
      var next := Apply(r, steps[0]);
      assert |next.gates| == |r.gates| && Newest(next).capacity == Newest(r).capacity;
      SameGates(next, steps[1..]);
    }
  }

  /** The largest capacity of some gates. */
  function Largest(gates: seq<Gate>): (m: nat)
    ensures forall i :: 0 <= i < |gates| ==> gates[i].capacity <= m
  {
    if gates == [] then 0
    else
      var front, last := Largest(gates[..|gates| - 1]), gates[|gates| - 1].capacity;
      if last > front then last else front
  }

  lemma DrainedIsBounded(r: Runtime)
    requires Counted(r) && r.gates != [] && OldUnheld(r) && OldDrained(r)
    ensures Bounded(r)
  {
    var capacity := Newest(r).capacity;
    var bound := Largest(r.gates) + r.peak;
    forall steps | Runs(r, steps) && Constant(steps, capacity)
      ensures After(r, steps).active <= capacity
    {
      SameGates(r, steps);
      LeasesAreBounded(r, steps, bound);
    }
  }

  /** A number above some numbers. */
  lemma {:induction false} Above(s: set<nat>) returns (n: nat)
    ensures forall x :: x in s ==> x < n
  {
    n := 0;
    if s != {} {
      var x :| x in s;
      var m := Above(s - {x});
      n := if m > x then m else x + 1;
      forall y | y in s
        ensures y < n
      {
        assert y != x ==> y in s - {x};
      }
    }
  }

  function Tasks(gates: seq<Gate>): set<Task> {
    if gates == [] then {}
    else
      var last := gates[|gates| - 1];
      Tasks(gates[..|gates| - 1]) + last.waiting + last.holders
  }

  lemma {:induction false} TasksOfGate(gates: seq<Gate>, i: nat)
    requires i < |gates|
    ensures gates[i].waiting <= Tasks(gates) && gates[i].holders <= Tasks(gates)
  {
    if i < |gates| - 1 {
      TasksOfGate(gates[..|gates| - 1], i);
    }
  }

  lemma Stranger(r: Runtime) returns (t: Task)
    ensures !Known(r, t)
  {
    t := Above(Tasks(r.gates));
    forall i | 0 <= i < |r.gates|
      ensures t !in r.gates[i].waiting && t !in r.gates[i].holders
    {
      TasksOfGate(r.gates, i);
    }
  }

  /** New tasks can fill the newest semaphore whatever happens at the older ones. */
  lemma {:induction false} Fill(r: Runtime) returns (steps: seq<Step>)
    requires Counted(r) && r.gates != []
    ensures Runs(r, steps) && Constant(steps, Newest(r).capacity)
    ensures After(r, steps).active == r.active + Newest(r).capacity - |Newest(r).holders|
    decreases Newest(r).capacity - |Newest(r).holders|
  {
    var n, capacity := |r.gates| - 1, Newest(r).capacity;
    assert GateOk(r.gates[n]);
    if |Newest(r).holders| == capacity {
      return [];
    }
    var t := Stranger(r);
    var asked := Apply(r, Dispatch(t, capacity));
    StepKeepsCounts(r, Dispatch(t, capacity));
    assert Enabled(asked, Acquire(n, t));
    var entered := Apply(asked, Acquire(n, t));
    StepKeepsCounts(asked, Acquire(n, t));
    assert |Newest(entered).holders| == |Newest(r).holders| + 1;
    var rest := Fill(entered);
    steps := [Dispatch(t, capacity), Acquire(n, t)] + rest;
    assert steps[1..] == [Acquire(n, t)] + rest && steps[1..][1..] == rest;
  }

  lemma WaiterBreaksTheBound(r: Runtime, i: nat) returns (steps: seq<Step>)
    requires Counted(r) && r.gates != [] && OldUnheld(r)
    requires i < |r.gates| - 1 && !Drained(r.gates[i])
    ensures Runs(r, steps) && Constant(steps, Newest(r).capacity) && After(r, steps).active == Newest(r).capacity + 1
  {
    ActiveHoldsNewest(r);
    var t :| t in r.gates[i].waiting;
    assert r.gates[i].holders == {};
    var entered := Apply(r, Acquire(i, t));
    StepKeepsCounts(r, Acquire(i, t));
    var rest := Fill(entered);
    steps := [Acquire(i, t)] + rest;
    assert steps[1..] == rest;
  }

  /** Once no lease of an older semaphore is held, the active attempts stay within the capacity in force, on
      every continuation up to the next resize, exactly if nobody can come out of an older semaphore: no task
      still waits there, or it lets nobody through. */
  lemma BoundedExactly(r: Runtime)
    requires Counted(r) && r.gates != [] && OldUnheld(r)
    ensures Bounded(r) <==> OldDrained(r)
  {
    if OldDrained(r) {
      DrainedIsBounded(r);
    } else {
      var i :| 0 <= i < |r.gates| - 1 && !Drained(r.gates[i]);
      var steps := WaiterBreaksTheBound(r, i);
      assert After(r, steps).active > Newest(r).capacity;
    }
  }

  /** So a resize is safe exactly if it is careful: if nobody waits for the semaphore that it replaces. */
  lemma ResizeExactly(r: Runtime, t: Task, capacity: nat)
    requires Counted(r) && OldUnheld(r) && OldDrained(r) && Enabled(r, Dispatch(t, capacity)) && Resizes(r, Dispatch(t, capacity))
    ensures Bounded(Apply(r, Dispatch(t, capacity))) <==> Careful(r, Dispatch(t, capacity))
  {
    var next := Apply(r, Dispatch(t, capacity));
    StepKeepsCounts(r, Dispatch(t, capacity));
    HoldersBound(r.gates, |r.gates| - 1);
    assert Newest(r).holders == {};
    BoundedExactly(next);
    assert next.gates[|r.gates| - 1] == Newest(r);
    if OldDrained(next) {
      assert Drained(next.gates[|r.gates| - 1]);
    }
  }

  // ---------- resizing ----------

  ghost predicate Reachable(r: Runtime) {
    exists steps :: Runs(IDLE, steps) && After(IDLE, steps) == r
  }

  lemma {:induction false} Longer(r: Runtime, steps: seq<Step>, s: Step)
    requires Runs(r, steps) && Enabled(After(r, steps), s)
    ensures Runs(r, steps + [s]) && After(r, steps + [s]) == Apply(After(r, steps), s)
    decreases |steps|
  {
    if steps == [] {
      assert [] + [s] == [s] && [s][1..] == [];
      assert After(Apply(r, s), [s][1..]) == Apply(r, s);
    } else {
      assert (steps + [s])[1..] == steps[1..] + [s];
      Longer(Apply(r, steps[0]), steps[1..], s);
    }
  }

  lemma Next(r: Runtime, s: Step, next: Runtime)
    requires Reachable(r) && Enabled(r, s) && Apply(r, s) == next
    ensures Reachable(next)
  {
    var steps :| Runs(IDLE, steps) && After(IDLE, steps) == r;
    Longer(IDLE, steps, s);
  }

  function Busy(gates: seq<Gate>, active: int, peak: int): Runtime {
    Runtime(gates, active, peak, {}, 0, None)
  }

  /** A resize that is not careful breaks the bound: a task already woken on the old semaphore survives a resize,
      so with capacities 1 and then 2 three attempts become active at once. */
  lemma ResizingBreaksTheBound() returns (r: Runtime)
    ensures Reachable(r) && r.active == 3 && |r.gates| == 2 && r.gates[0].capacity == 1 && r.gates[1].capacity == 2
  {
    assert Reachable(IDLE) by {
      assert Runs(IDLE, []) && After(IDLE, []) == IDLE;
    }
    var r1 := Busy([Gate(1, {1}, {})], 0, 0);
    Next(IDLE, Dispatch(1, 1), r1);
    var r2 := Busy([Gate(1, {}, {1})], 1, 1);
    Next(r1, Acquire(0, 1), r2);
    var r3 := Busy([Gate(1, {2}, {1})], 1, 1);
    Next(r2, Dispatch(2, 1), r3);
    var r4 := Busy([Gate(1, {2}, {})], 0, 1);
    Next(r3, Leave(0, 1), r4);
    var r5 := Busy([Gate(1, {2}, {}), Gate(2, {3}, {})], 0, 1);
    Next(r4, Dispatch(3, 2), r5);
    var r6 := Busy([Gate(1, {}, {2}), Gate(2, {3}, {})], 1, 1);
    Next(r5, Acquire(0, 2), r6);
    ThreeActive(r6);
    r := Busy([Gate(1, {}, {2}), Gate(2, {}, {3, 4})], 3, 3);
  }

  lemma ThreeActive(r6: Runtime)
    requires Reachable(r6) && r6 == Busy([Gate(1, {}, {2}), Gate(2, {3}, {})], 1, 1)
    ensures Reachable(Busy([Gate(1, {}, {2}), Gate(2, {}, {3, 4})], 3, 3))
  {
    var r7 := Busy([Gate(1, {}, {2}), Gate(2, {}, {3})], 2, 2);
    Next(r6, Acquire(1, 3), r7);
    var r8 := Busy([Gate(1, {}, {2}), Gate(2, {4}, {3})], 2, 2);
    Next(r7, Dispatch(4, 2), r8);
    var three, four: set<Task> := {3}, {4};
    assert three + four == {3, 4};
    Next(r8, Acquire(1, 4), Busy([Gate(1, {}, {2}), Gate(2, {}, {3, 4})], 3, 3));
  }
}
