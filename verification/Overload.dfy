/**
What overlapping admissions let in. Once two tested shares have been added on top of each other the
counter can exceed 2^20, and then the 64-bit addition in the next test can wrap; no number of tasks,
not even one, is safe.
*/
module Overload {
  import opened Words
  import opened Scheduler
  import opened Admission
  import opened Overlap
  import opened Schedulability

  // ---------------------------------------------------------------- a counter beyond the limit

  const LEFT := Admitted(1, LONG, 700000)
  const RIGHT := Admitted(2, LONG, 700000)

  /** Both registrations have added their 700000 units; neither is listed. */
  ghost function BothAdmitted(): SplitState {
    SplitState(Boot(1).(util := 1400000), [LEFT, RIGHT])
  }

  /** Any run from there is the end of a run from loading the module. */
  lemma BothAdmittedReachable(rest: seq<FineEvent>, msecs: nat -> nat) returns (es: seq<FineEvent>)
    requires FineLegal(BothAdmitted(), rest, msecs)
    ensures FineLegal(SplitState(Boot(1), []), es, msecs)
    ensures FineExec(SplitState(Boot(1), []), es, msecs) == FineExec(BothAdmitted(), rest, msecs)
    ensures Unwrapped(SplitState(Boot(1), []), es, msecs) <==> Unwrapped(BothAdmitted(), rest, msecs)
  {
    var s0, s2 := TwoTested(), BothAdmitted();
    var s1 := SplitState(Boot(1).(util := 700000), [LEFT, s0.flights[1]]);
    LongShare(s0.flights[0]);
    LongShare(s0.flights[1]);
    assert FineStep(s1, Update(1), msecs) == s2;
    UnwrappedCons(s1, Update(1), rest, msecs);
    assert FineStep(s0, Update(0), msecs) == s1;
    UnwrappedCons(s0, Update(0), [Update(1)] + rest, msecs);
    es := TwoTestedReachable([Update(0)] + ([Update(1)] + rest), msecs);
  }

  /** Reachable from loading the module by a run in which no test wraps. */
  ghost predicate ReachableUnwrapped(s: SplitState, msecs: nat -> nat) {
    exists now: nat, es: seq<FineEvent> ::
      now > 0 && FineLegal(SplitState(Boot(now), []), es, msecs)
      && Unwrapped(SplitState(Boot(now), []), es, msecs)
      && FineExec(SplitState(Boot(now), []), es, msecs) == s
  }

  // ---------------------------------------------------------------- two tasks, every addition exact

  lemma TwoTasksOverload(msecs: nat -> nat) returns (s: SplitState)
    ensures ReachableUnwrapped(s, msecs) && s.flights == [] && s.base.util == 1400000
    ensures s.base.tasks == [NewTask(0, 1, LONG, 700000), NewTask(1, 2, LONG, 700000)]
    ensures Product(s.base.tasks) > 2.0
  {
    var s0 := BothAdmitted();
    var s1 := FineStep(s0, Split(Append(0, 0)), msecs);
    s := FineStep(s1, Split(Append(0, 1)), msecs);
    UnwrappedCons(s1, Split(Append(0, 1)), [], msecs);
    UnwrappedCons(s0, Split(Append(0, 0)), [Split(Append(0, 1))] + [], msecs);
    var es := BothAdmittedReachable([Split(Append(0, 0))] + ([Split(Append(0, 1))] + []), msecs);
    TwoFactors(s.base.tasks);
  }

  lemma TwoFactors(ts: seq<Task>)
    requires |ts| == 2 && forall t <- ts :: t.period == LONG && t.procTime == 700000
    ensures Product(ts) > 2.0
  {
    var xs := Loads(ts);
    var x := 700000.0 / 1048576.0;
    assert xs[0] == x && xs[1] == x;
    assert xs[..1][..0] == [] && Factors([]) == 1.0;
    assert Factors(xs[..1]) == 1.0 + x;
    assert Factors(xs) == (1.0 + x) * (1.0 + x);
    assert (1.0 + x) * (1.0 + x) >= (1.0 + x) * 1.6 by { assert 1.0 + x >= 1.6; }
  }

  // ---------------------------------------------------------------- one task, after a wrap

  /** The largest load below 2^44; its share is 2^64 - 2^20. */
  const HUGE: Word64 := UNSHIFTED - 1

  lemma HugeShare()
    ensures TruncUtil(HUGE, 1) == TWO_64 - SHIFT
    ensures Add64(1400000, TruncUtil(HUGE, 1)) == 351424
  {
  }

  /** On top of 1400000 the test's addition wraps, and the registration goes through. */
  lemma HugeEnters()
    ensures var s := RegisterTask(BothAdmitted().base, 0, 3, 1, HUGE);
            s.tasks == [NewTask(0, 3, 1, HUGE)] && s.util == 351424
  {
    HugeShare();
  }

  lemma OneFactor(t: Task)
    requires t.period == 1 && t.procTime == HUGE
    ensures Product([t]) > 2.0
  {
    var xs := Loads([t]);
    assert xs[..0] == [] && Factors([]) == 1.0 && xs[0] == HUGE as real;
  }

  /** A task of load 2^44 - 1 is let in and listed alone. */
  lemma OneTaskOverloads(msecs: nat -> nat) returns (s: SplitState)
    ensures FineReachable(s, msecs)
    ensures s.base.tasks == [NewTask(0, 3, 1, HUGE)] && s.base.util == 351424
    ensures Product(s.base.tasks) > 2.0
  {
    var s0, e := BothAdmitted(), Split(Whole(Register(0, 3, 1, HUGE)));
    s := FineStep(s0, e, msecs);
    HugeEnters();
    FineCons(s0, e, [], msecs);
    var es := BothAdmittedReachable([e] + [], msecs);
    OneFactor(NewTask(0, 3, 1, HUGE));
  }

  // ---------------------------------------------------------------- the frontiers

  /** Nobody who has passed the test alone exceeds the limit. */
  ghost predicate Modest(s: SplitState) {
    && (forall t <- s.base.tasks :: TruncUtil(t.procTime, t.period) < MAX_UTIL)
    && (forall f <- s.flights :: !f.Checked? ==> Share(f) < MAX_UTIL)
  }

  lemma WholeModest(s: SplitState, w: Event, msecs: nat -> nat)
    requires Sound(s.base) && Enabled(s.base, w) && Modest(s) && !Wraps(s, Split(Whole(w)))
    ensures Modest(SplitStep(s, Whole(w), msecs))
  {
    var ts' := Step(s.base, w, msecs).tasks;
    forall t <- ts' ensures TruncUtil(t.procTime, t.period) < MAX_UTIL {
      if !w.Register? && !w.Deregister? {
        OthersKeepTasks(s.base, w, msecs);
        var i :| 0 <= i < |ts'| && ts'[i] == t;
        assert s.base.tasks[i] in s.base.tasks && s.base.tasks[i].procTime == t.procTime;
      }
    }
  }

  lemma PassedModest(s: SplitState, k: nat, f: Flight)
    requires Modest(s) && k < |s.flights| && (f.Checked? || Share(f) < MAX_UTIL)
    ensures forall g <- s.flights[k := f] :: !g.Checked? ==> Share(g) < MAX_UTIL
  {
    var fs := s.flights[k := f];
    forall i | 0 <= i < |fs| && !fs[i].Checked? ensures Share(fs[i]) < MAX_UTIL {
      assert i == k || fs[i] in s.flights;
    }
  }

  lemma GoneModest(s: SplitState, k: nat)
    requires Modest(s) && k < |s.flights|
    ensures forall g <- Without(s.flights, k) :: !g.Checked? ==> Share(g) < MAX_UTIL
  {
  }

  lemma TestModest(s: SplitState, k: nat, msecs: nat -> nat)
    requires Sound(s.base) && FineEnabled(s, Test(k)) && Modest(s) && !Wraps(s, Test(k))
    ensures Modest(FineStep(s, Test(k), msecs))
  {
    var f := s.flights[k];
    if Admissible(s.base.util, f.period, f.procTime) {
      NoWrap(s.base.util, Share(f));
      PassedModest(s, k, Tested(f.pid, f.period, f.procTime));
    } else {
      GoneModest(s, k);
    }
  }

  lemma AdmitModest(s: SplitState, k: nat, msecs: nat -> nat)
    requires Sound(s.base) && SplitEnabled(s, Admit(k)) && Modest(s) && !Wraps(s, Split(Admit(k)))
    ensures Modest(SplitStep(s, Admit(k), msecs))
  {
    var f := s.flights[k];
    if Admissible(s.base.util, f.period, f.procTime) {
      NoWrap(s.base.util, Share(f));
      PassedModest(s, k, Admitted(f.pid, f.period, f.procTime));
    } else {
      GoneModest(s, k);
    }
  }

  lemma UpdateModest(s: SplitState, k: nat, msecs: nat -> nat)
    requires Sound(s.base) && FineEnabled(s, Update(k)) && Modest(s)
    ensures Modest(FineStep(s, Update(k), msecs))
  {
    var f := s.flights[k];
    assert f in s.flights && Share(Admitted(f.pid, f.period, f.procTime)) == Share(f);
    PassedModest(s, k, Admitted(f.pid, f.period, f.procTime));
  }

  lemma AppendModest(s: SplitState, k: nat, addr: nat, msecs: nat -> nat)
    requires Sound(s.base) && SplitEnabled(s, Append(k, addr)) && Modest(s)
    ensures Modest(SplitStep(s, Append(k, addr), msecs))
  {
    var f := s.flights[k];
    assert f in s.flights && Share(f) == TruncUtil(f.procTime, f.period);
    GoneModest(s, k);
  }

  lemma CheckModest(s: SplitState, pid: Pid, period: Period, procTime: Word64, msecs: nat -> nat)
    requires Sound(s.base) && Modest(s)
    ensures Modest(SplitStep(s, Check(pid, period, procTime), msecs))
  {
  }

  lemma StepModest(s: SplitState, e: FineEvent, msecs: nat -> nat)
    requires Sound(s.base) && FineEnabled(s, e) && Modest(s) && !Wraps(s, e)
    ensures Modest(FineStep(s, e, msecs))
  {
    match e
    case Test(k) => TestModest(s, k, msecs);
    case Update(k) => UpdateModest(s, k, msecs);
    case Split(Check(pid, period, procTime)) => CheckModest(s, pid, period, procTime, msecs);
    case Split(Admit(k)) => AdmitModest(s, k, msecs);
    case Split(Append(k, addr)) => AppendModest(s, k, addr, msecs);
    case Split(Whole(w)) => WholeModest(s, w, msecs);
  }

  lemma {:induction false} RunModest(s: SplitState, es: seq<FineEvent>, msecs: nat -> nat)
    requires Sound(s.base) && FineLegal(s, es, msecs) && Modest(s) && Unwrapped(s, es, msecs)
    ensures Modest(FineExec(s, es, msecs))
    decreases |es|
  {
    if es != [] {
      StepModest(s, es[0], msecs);
      RunModest(FineStep(s, es[0], msecs), es[1..], msecs);
    }
  }

  /** The guarantee of the admission test when tests overlap but none wraps. */
  ghost predicate SafeUnwrapped(n: nat, msecs: nat -> nat) {
    forall s :: ReachableUnwrapped(s, msecs) && |s.base.tasks| <= n && Unshifted(s.base.tasks) ==>
      Product(s.base.tasks) <= 2.0
  }

  lemma OneIsSafe(s: SplitState, msecs: nat -> nat)
    requires ReachableUnwrapped(s, msecs) && |s.base.tasks| <= 1 && Unshifted(s.base.tasks)
    ensures Product(s.base.tasks) <= 2.0
  {
    var now: nat, es :| now > 0 && FineLegal(SplitState(Boot(now), []), es, msecs)
      && Unwrapped(SplitState(Boot(now), []), es, msecs)
      && FineExec(SplitState(Boot(now), []), es, msecs) == s;
    RunModest(SplitState(Boot(now), []), es, msecs);
    var ts := s.base.tasks;
    if ts != [] {
      assert ts[..0] == [] && SumUtil(ts) == SumUtil(ts[..0]) + TruncUtil(ts[0].procTime, ts[0].period);
    }
    LimitImpliesTest(ts);
  }

  /** When tests overlap but none wraps, the hyperbolic test is implied for one task and no more. */
  lemma UnwrappedFrontier(n: nat, msecs: nat -> nat)
    ensures SafeUnwrapped(n, msecs) <==> n <= 1
  {
    if n <= 1 {
      forall s | ReachableUnwrapped(s, msecs) && |s.base.tasks| <= n && Unshifted(s.base.tasks)
        ensures Product(s.base.tasks) <= 2.0
      {
        OneIsSafe(s, msecs);
      }
    } else {
      var s := TwoTasksOverload(msecs);
      assert Unshifted(s.base.tasks);
    }
  }

  /** The guarantee of the admission test, whatever overlaps. */
  ghost predicate SafeAnyway(n: nat, msecs: nat -> nat) {
    forall s :: FineReachable(s, msecs) && |s.base.tasks| <= n && Unshifted(s.base.tasks) ==>
      Product(s.base.tasks) <= 2.0
  }

  /** Over all runs it is implied for no number of tasks but 0. */
  lemma OverlapFrontier(n: nat, msecs: nat -> nat)
    ensures SafeAnyway(n, msecs) <==> n == 0
  {
    if n == 0 {
      forall s | FineReachable(s, msecs) && |s.base.tasks| <= n && Unshifted(s.base.tasks)
        ensures Product(s.base.tasks) <= 2.0
      {
        assert Loads(s.base.tasks) == [];
      }
    } else {
      var s := OneTaskOverloads(msecs);
      assert Unshifted(s.base.tasks);
    }
  }
}
