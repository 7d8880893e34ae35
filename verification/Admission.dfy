/**
Admission control. `Task_register` reads and writes the shared state in separate sections (the
duplicate check, the admission test with its update, and the append), so whole other calls can run in
between. The steps below interleave them freely and keep an account of every registration in flight:
what `total_util` counts, and that the 64-bit arithmetic on it is exact while it is below the limit.
Module Overlap takes the test and its update apart and turns the steps into runs.
*/
module Admission {
  import opened Words
  import opened Scheduler

  // ---------------------------------------------------------------- what total_util should count

  ghost function SumUtil(ts: seq<Task>): nat {
    if ts == [] then 0
    else SumUtil(ts[..|ts| - 1]) + TruncUtil(ts[|ts| - 1].procTime, ts[|ts| - 1].period)
  }

  lemma {:induction false} SumUtilSame(ts: seq<Task>, ts': seq<Task>)
    requires SameTasks(ts, ts')
    ensures SumUtil(ts) == SumUtil(ts')
  {
    if ts != [] {
      SumUtilSame(ts[..|ts| - 1], ts'[..|ts| - 1]);
    }
  }

  lemma SumUtilAppend(ts: seq<Task>, t: Task)
    ensures SumUtil(ts + [t]) == SumUtil(ts) + TruncUtil(t.procTime, t.period)
  {
    assert (ts + [t])[..|ts|] == ts;
  }

  lemma {:induction false} SumUtilRemove(ts: seq<Task>, k: nat)
    requires k < |ts|
    ensures SumUtil(Remove(ts, k)) + TruncUtil(ts[k].procTime, ts[k].period) == SumUtil(ts)
  {
    var n := |ts| - 1;
    if k == n {
      assert Remove(ts, k) == ts[..n];
    } else {
      SumUtilRemove(ts[..n], k);
      assert Remove(ts, k) == Remove(ts[..n], k) + [ts[n]];
      SumUtilAppend(Remove(ts[..n], k), ts[n]);
    }
  }

  /** The admission test's addition cannot wrap: the shifted word leaves room for a full counter. */
  lemma AdditionExact(util: Word64, period: Period, procTime: Word64)
    requires util < MAX_UTIL
    ensures Add64(util, TruncUtil(procTime, period)) == util + TruncUtil(procTime, period)
  {
  }

  lemma SubtractionExact(a: Word64, b: Word64)
    requires b <= a
    ensures Sub64(a, b) == a - b
  {
  }

  // ---------------------------------------------------------------- the split machine

  /** How far a registration has come; `Tested` occurs only where test and update are apart. */
  datatype Flight =
    | Checked(pid: Pid, period: Period, procTime: Word64)
    | Tested(pid: Pid, period: Period, procTime: Word64)
    | Admitted(pid: Pid, period: Period, procTime: Word64)

  /** `flights` are the Task_register calls that are between two of their sections. */
  datatype SplitState = SplitState(base: State, flights: seq<Flight>)

  datatype SplitEvent =
    | Check(pid: Pid, period: Period, procTime: Word64)
    | Admit(which: nat)
    | Append(which: nat, addr: nat)
    | Whole(e: Event)

  function Without(fs: seq<Flight>, k: nat): seq<Flight>
    requires k < |fs|
  {
    fs[..k] + fs[k + 1..]
  }

  ghost predicate SplitEnabled(s: SplitState, e: SplitEvent) {
    match e
    case Check(_, _, _) => true
    case Admit(k) => k < |s.flights| && s.flights[k].Checked?
    case Append(k, addr) => k < |s.flights| && s.flights[k].Admitted? && !HasAddr(s.base.tasks, addr)
    case Whole(w) => Enabled(s.base, w)
  }

  ghost function SplitStep(s: SplitState, e: SplitEvent, msecs: nat -> nat): (s': SplitState)
    requires Sound(s.base) && SplitEnabled(s, e)
    ensures Sound(s'.base)
  {
    match e
    case Check(pid, period, procTime) =>
      if FirstIndex(s.base.tasks, pid) >= 0 then s
      else s.(flights := s.flights + [Checked(pid, period, procTime)])
    case Admit(k) =>
      var f := s.flights[k];
      if Admissible(s.base.util, f.period, f.procTime) then
        SplitState(s.base.(util := Add64(s.base.util, TruncUtil(f.procTime, f.period))),
                   s.flights[k := Admitted(f.pid, f.period, f.procTime)])
      else
        s.(flights := Without(s.flights, k))
    case Append(k, addr) =>
      var f := s.flights[k];
      var t := NewTask(addr, f.pid, f.period, f.procTime);
      var base' := s.base.(tasks := s.base.tasks + [t]);
      AppendSound(s.base, t, base');
      SplitState(base', Without(s.flights, k))
    case Whole(w) =>
      s.(base := Step(s.base, w, msecs))
  }

  // ---------------------------------------------------------------- the account

  function Share(f: Flight): Word64 {
    TruncUtil(f.procTime, f.period)
  }

  /** What an admitted flight has added to `total_util` without being listed. */
  function FlightUtil(f: Flight): nat {
    if f.Admitted? then Share(f) else 0
  }

  ghost function Weigh(fs: seq<Flight>, weight: Flight -> nat): nat {
    if fs == [] then 0 else Weigh(fs[..|fs| - 1], weight) + weight(fs[|fs| - 1])
  }

  ghost function FlightSum(fs: seq<Flight>): nat {
    Weigh(fs, FlightUtil)
  }

  lemma WeighAppend(fs: seq<Flight>, f: Flight, weight: Flight -> nat)
    ensures Weigh(fs + [f], weight) == Weigh(fs, weight) + weight(f)
  {
    assert (fs + [f])[..|fs|] == fs;
  }

  lemma {:induction false} WeighWithout(fs: seq<Flight>, k: nat, weight: Flight -> nat)
    requires k < |fs|
    ensures Weigh(Without(fs, k), weight) + weight(fs[k]) == Weigh(fs, weight)
  {
    var n := |fs| - 1;
    if k == n {
      assert Without(fs, k) == fs[..n];
    } else {
      WeighWithout(fs[..n], k, weight);
      assert Without(fs, k) == Without(fs[..n], k) + [fs[n]];
      WeighAppend(Without(fs[..n], k), fs[n], weight);
    }
  }

  lemma WeighUpdate(fs: seq<Flight>, k: nat, f: Flight, weight: Flight -> nat)
    requires k < |fs|
    ensures Weigh(fs[k := f], weight) == Weigh(fs, weight) - weight(fs[k]) + weight(f)
  {
    WeighWithout(fs, k, weight);
    WeighWithout(fs[k := f], k, weight);
    assert Without(fs[k := f], k) == Without(fs, k);
  }

  /** `total_util` is the listed tasks plus the admitted-but-unlisted ones, below the limit. */
  ghost predicate Accounted(s: SplitState) {
    && s.base.util == SumUtil(s.base.tasks) + FlightSum(s.flights)
    && s.base.util < MAX_UTIL
  }

  /** Every call but register and deregister touches only `state`, `nextDdl`, `ct` and timers. */
  lemma OthersKeepTasks(s: State, w: Event, msecs: nat -> nat)
    requires Sound(s) && Enabled(s, w) && !w.Register? && !w.Deregister?
    ensures SameTasks(s.tasks, Step(s, w, msecs).tasks)
    ensures Step(s, w, msecs).util == s.util
  {
  }

  lemma RegisterKeepsAccount(s: State, inFlight: nat, addr: nat, pid: Pid, period: Period, procTime: Word64)
    requires Sound(s) && !HasAddr(s.tasks, addr)
    requires s.util == SumUtil(s.tasks) + inFlight && s.util < MAX_UTIL
    ensures var s' := RegisterTask(s, addr, pid, period, procTime);
            s'.util == SumUtil(s'.tasks) + inFlight && s'.util < MAX_UTIL
  {
    AdditionExact(s.util, period, procTime);
    SumUtilAppend(s.tasks, NewTask(addr, pid, period, procTime));
  }

  lemma DeregisterKeepsAccount(s: State, inFlight: nat, pid: Pid)
    requires Sound(s)
    requires s.util == SumUtil(s.tasks) + inFlight && s.util < MAX_UTIL
    ensures var s' := DeregisterTask(s, pid);
            s'.util == SumUtil(s'.tasks) + inFlight && s'.util < MAX_UTIL
  {
    var k := FirstIndex(s.tasks, pid);
    if k >= 0 {
      SumUtilRemove(s.tasks, k);
      SubtractionExact(s.util, TruncUtil(s.tasks[k].procTime, s.tasks[k].period));
    }
  }

  lemma WholeKeepsAccount(s: SplitState, w: Event, msecs: nat -> nat)
    requires Sound(s.base) && Enabled(s.base, w) && Accounted(s)
    ensures Accounted(s.(base := Step(s.base, w, msecs)))
  {
    match w
    case Register(addr, pid, period, procTime) =>
      RegisterKeepsAccount(s.base, FlightSum(s.flights), addr, pid, period, procTime);
    case Deregister(pid) =>
      DeregisterKeepsAccount(s.base, FlightSum(s.flights), pid);
    case _ =>
      OthersKeepTasks(s.base, w, msecs);
      SumUtilSame(s.base.tasks, Step(s.base, w, msecs).tasks);
  }

  lemma SplitStepKeepsAccount(s: SplitState, e: SplitEvent, msecs: nat -> nat)
    requires Sound(s.base) && SplitEnabled(s, e) && Accounted(s)
    ensures Accounted(SplitStep(s, e, msecs))
  {
    match e
    case Check(pid, period, procTime) =>
      WeighAppend(s.flights, Checked(pid, period, procTime), FlightUtil);
    case Admit(k) =>
      var f := s.flights[k];
      AdditionExact(s.base.util, f.period, f.procTime);
      WeighUpdate(s.flights, k, Admitted(f.pid, f.period, f.procTime), FlightUtil);
      WeighWithout(s.flights, k, FlightUtil);
    case Append(k, addr) =>
      var f := s.flights[k];
      SumUtilAppend(s.base.tasks, NewTask(addr, f.pid, f.period, f.procTime));
      WeighWithout(s.flights, k, FlightUtil);
    case Whole(w) =>
      WholeKeepsAccount(s, w, msecs);
  }

  /** What the 64-bit operations a step may perform would have to compute to be exact. */
  ghost predicate ArithmeticExact(s: SplitState) {
    && (forall period: Period, procTime: Word64 ::
          Add64(s.base.util, TruncUtil(procTime, period)) == s.base.util + TruncUtil(procTime, period))
    && (forall t :: t in s.base.tasks ==>
          Sub64(s.base.util, TruncUtil(t.procTime, t.period)) == s.base.util - TruncUtil(t.procTime, t.period))
  }

  lemma AccountedIsExact(s: SplitState)
    requires Accounted(s)
    ensures ArithmeticExact(s)
  {
    forall t | t in s.base.tasks
      ensures Sub64(s.base.util, TruncUtil(t.procTime, t.period)) == s.base.util - TruncUtil(t.procTime, t.period)
    {
      var k :| 0 <= k < |s.base.tasks| && s.base.tasks[k] == t;
      SumUtilRemove(s.base.tasks, k);
      SubtractionExact(s.base.util, TruncUtil(t.procTime, t.period));
    }
    forall period: Period, procTime: Word64
      ensures Add64(s.base.util, TruncUtil(procTime, period)) == s.base.util + TruncUtil(procTime, period)
    {
      AdditionExact(s.base.util, period, procTime);
    }
  }

  /** The sections of one call, run back to back on an idle machine; what is not enabled is skipped. */
  ghost function BackToBack(s: State, addr: nat, pid: Pid, period: Period, procTime: Word64,
                            msecs: nat -> nat): SplitState
    requires Sound(s) && !HasAddr(s.tasks, addr)
  {
    var checked := SplitStep(SplitState(s, []), Check(pid, period, procTime), msecs);
    if checked.flights == [] then checked
    else
      var admitted := SplitStep(checked, Admit(0), msecs);
      if admitted.flights == [] then admitted else SplitStep(admitted, Append(0, addr), msecs)
  }

  /** The atomic `RegisterTask` is the split call without interference. */
  lemma RegisterIsBackToBack(s: State, addr: nat, pid: Pid, period: Period, procTime: Word64, msecs: nat -> nat)
    requires Sound(s) && !HasAddr(s.tasks, addr)
    ensures BackToBack(s, addr, pid, period, procTime, msecs)
            == SplitState(RegisterTask(s, addr, pid, period, procTime), [])
  {
  }
}
