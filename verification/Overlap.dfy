/**
Admission without the lock it lacks: Task_register tests `total_util` and adds to it in two places,
and nothing keeps another call out in between. Here a flight rests as `Tested` between the two.
`total_util` still counts what it should; the limit holds as long as no test overdraws, that is, lets
a share through that does not fit in on top of the tested ones still to be added.
*/
module Overlap {
  import opened Words
  import opened Scheduler
  import opened Admission

  datatype FineEvent =
    | Test(which: nat)
    | Update(which: nat)
    | Split(e: SplitEvent)

  ghost predicate FineEnabled(s: SplitState, e: FineEvent) {
    match e
    case Test(k) => k < |s.flights| && s.flights[k].Checked?
    case Update(k) => k < |s.flights| && s.flights[k].Tested?
    case Split(split) => SplitEnabled(s, split)
  }

  ghost function FineStep(s: SplitState, e: FineEvent, msecs: nat -> nat): (s': SplitState)
    requires Sound(s.base) && FineEnabled(s, e)
    ensures Sound(s'.base)
  {
    match e
    case Test(k) =>
      var f := s.flights[k];
      if Admissible(s.base.util, f.period, f.procTime) then
        s.(flights := s.flights[k := Tested(f.pid, f.period, f.procTime)])
      else
        s.(flights := Without(s.flights, k))
    case Update(k) =>
      var f := s.flights[k];
      SplitState(s.base.(util := Add64(s.base.util, Share(f))),
                 s.flights[k := Admitted(f.pid, f.period, f.procTime)])
    case Split(split) => SplitStep(s, split, msecs)
  }

  ghost predicate FineLegal(s: SplitState, es: seq<FineEvent>, msecs: nat -> nat)
    requires Sound(s.base)
    decreases |es|
  {
    es == [] || (FineEnabled(s, es[0]) && FineLegal(FineStep(s, es[0], msecs), es[1..], msecs))
  }

  ghost function FineExec(s: SplitState, es: seq<FineEvent>, msecs: nat -> nat): (s': SplitState)
    requires Sound(s.base) && FineLegal(s, es, msecs)
    ensures Sound(s'.base)
    decreases |es|
  {
    if es == [] then s else FineExec(FineStep(s, es[0], msecs), es[1..], msecs)
  }

  lemma FineCons(s: SplitState, e: FineEvent, es: seq<FineEvent>, msecs: nat -> nat)
    requires Sound(s.base) && FineEnabled(s, e) && FineLegal(FineStep(s, e, msecs), es, msecs)
    ensures FineLegal(s, [e] + es, msecs)
    ensures FineExec(s, [e] + es, msecs) == FineExec(FineStep(s, e, msecs), es, msecs)
  {
    assert ([e] + es)[1..] == es;
  }

  /** Reachable from loading the module, whatever happens between the sections of a registration. */
  ghost predicate FineReachable(s: SplitState, msecs: nat -> nat) {
    exists now: nat, es: seq<FineEvent> ::
      now > 0 && FineLegal(SplitState(Boot(now), []), es, msecs)
      && FineExec(SplitState(Boot(now), []), es, msecs) == s
  }

  /** The one-section admission of the coarser machine is a test with its update right behind it. */
  lemma AdmitIsTestThenUpdate(s: SplitState, k: nat, msecs: nat -> nat)
    requires Sound(s.base) && FineEnabled(s, Test(k))
    ensures var tested := FineStep(s, Test(k), msecs);
            SplitStep(s, Admit(k), msecs)
            == if |tested.flights| == |s.flights| then FineStep(tested, Update(k), msecs) else tested
  {
    var f := s.flights[k];
    if Admissible(s.base.util, f.period, f.procTime) {
      var done := Admitted(f.pid, f.period, f.procTime);
      assert s.flights[k := Tested(f.pid, f.period, f.procTime)][k := done] == s.flights[k := done];
    }
  }

  // ---------------------------------------------------------------- what total_util counts

  ghost function Counted(s: SplitState): nat {
    SumUtil(s.base.tasks) + FlightSum(s.flights)
  }

  function WithWraps(util: Word64, wraps: nat): nat {
    util + wraps * TWO_64
  }

  /** `util` is the 64-bit word of `total`. */
  ghost predicate IsWord(util: Word64, total: nat) {
    exists wraps: nat :: total == WithWraps(util, wraps)
  }

  /** `total_util` is what should be counted, as a 64-bit word. */
  ghost predicate CountedModulo(s: SplitState) {
    IsWord(s.base.util, Counted(s))
  }

  lemma SmallWord(util: Word64, total: nat)
    requires IsWord(util, total) && total < TWO_64
    ensures util == total
  {
  }

  lemma AddWord(util: Word64, total: nat, share: Word64)
    requires IsWord(util, total)
    ensures IsWord(Add64(util, share), total + share)
  {
    var wraps: nat :| total == WithWraps(util, wraps);
    assert total + share == WithWraps(Add64(util, share), if util + share < TWO_64 then wraps else wraps + 1);
  }

  lemma SubWord(util: Word64, total: nat, share: Word64)
    requires IsWord(util, total) && share <= total
    ensures IsWord(Sub64(util, share), total - share)
  {
    var wraps: nat :| total == WithWraps(util, wraps);
    assert total - share == WithWraps(Sub64(util, share), if share <= util then wraps else wraps - 1);
  }

  lemma RegisterKeepsCount(s: State, inFlight: nat, addr: nat, pid: Pid, period: Period, procTime: Word64)
    requires Sound(s) && !HasAddr(s.tasks, addr) && IsWord(s.util, SumUtil(s.tasks) + inFlight)
    ensures var s' := RegisterTask(s, addr, pid, period, procTime);
            IsWord(s'.util, SumUtil(s'.tasks) + inFlight)
  {
    AddWord(s.util, SumUtil(s.tasks) + inFlight, TruncUtil(procTime, period));
    SumUtilAppend(s.tasks, NewTask(addr, pid, period, procTime));
  }

  lemma DeregisterKeepsCount(s: State, inFlight: nat, pid: Pid)
    requires Sound(s) && IsWord(s.util, SumUtil(s.tasks) + inFlight)
    ensures var s' := DeregisterTask(s, pid);
            IsWord(s'.util, SumUtil(s'.tasks) + inFlight)
  {
    var k := FirstIndex(s.tasks, pid);
    if k >= 0 {
      SumUtilRemove(s.tasks, k);
      SubWord(s.util, SumUtil(s.tasks) + inFlight, TruncUtil(s.tasks[k].procTime, s.tasks[k].period));
    }
  }

  lemma OthersKeepCount(s: State, w: Event, msecs: nat -> nat)
    requires Sound(s) && Enabled(s, w) && !w.Register? && !w.Deregister?
    ensures Step(s, w, msecs).util == s.util && SumUtil(Step(s, w, msecs).tasks) == SumUtil(s.tasks)
  {
    OthersKeepTasks(s, w, msecs);
    SumUtilSame(s.tasks, Step(s, w, msecs).tasks);
  }

  lemma StepKeepsCount(s: State, inFlight: nat, w: Event, msecs: nat -> nat)
    requires Sound(s) && Enabled(s, w) && IsWord(s.util, SumUtil(s.tasks) + inFlight)
    ensures var s' := Step(s, w, msecs); IsWord(s'.util, SumUtil(s'.tasks) + inFlight)
  {
    match w
    case Register(addr, pid, period, procTime) => RegisterKeepsCount(s, inFlight, addr, pid, period, procTime);
    case Deregister(pid) => DeregisterKeepsCount(s, inFlight, pid);
    case _ => OthersKeepCount(s, w, msecs);
  }

  /** A flight turns from not counted to counted as its share is added. */
  lemma AddingKeepsCount(s: SplitState, k: nat, s': SplitState)
    requires CountedModulo(s) && k < |s.flights| && !s.flights[k].Admitted?
    requires var f := s.flights[k];
             s' == SplitState(s.base.(util := Add64(s.base.util, Share(f))),
                              s.flights[k := Admitted(f.pid, f.period, f.procTime)])
    ensures CountedModulo(s')
  {
    var f := s.flights[k];
    AddWord(s.base.util, Counted(s), Share(f));
    WeighUpdate(s.flights, k, Admitted(f.pid, f.period, f.procTime), FlightUtil);
  }

  lemma AppendKeepsCount(s: SplitState, k: nat, addr: nat, msecs: nat -> nat)
    requires Sound(s.base) && SplitEnabled(s, Append(k, addr))
    ensures Counted(SplitStep(s, Append(k, addr), msecs)) == Counted(s)
  {
    var f := s.flights[k];
    SumUtilAppend(s.base.tasks, NewTask(addr, f.pid, f.period, f.procTime));
    WeighWithout(s.flights, k, FlightUtil);
  }

  lemma SplitKeepsCount(s: SplitState, e: SplitEvent, msecs: nat -> nat)
    requires Sound(s.base) && SplitEnabled(s, e) && CountedModulo(s)
    ensures CountedModulo(SplitStep(s, e, msecs))
  {
    match e
    case Check(pid, period, procTime) =>
      WeighAppend(s.flights, Checked(pid, period, procTime), FlightUtil);
    case Admit(k) =>
      var f := s.flights[k];
      if Admissible(s.base.util, f.period, f.procTime) {
        AddingKeepsCount(s, k, SplitStep(s, e, msecs));
      } else {
        WeighWithout(s.flights, k, FlightUtil);
      }
    case Append(k, addr) =>
      AppendKeepsCount(s, k, addr, msecs);
    case Whole(w) =>
      StepKeepsCount(s.base, FlightSum(s.flights), w, msecs);
  }

  lemma FineKeepsCount(s: SplitState, e: FineEvent, msecs: nat -> nat)
    requires Sound(s.base) && FineEnabled(s, e) && CountedModulo(s)
    ensures CountedModulo(FineStep(s, e, msecs))
  {
    match e
    case Test(k) =>
      var f := s.flights[k];
      WeighUpdate(s.flights, k, Tested(f.pid, f.period, f.procTime), FlightUtil);
      WeighWithout(s.flights, k, FlightUtil);
    case Update(k) =>
      AddingKeepsCount(s, k, FineStep(s, e, msecs));
    case Split(split) =>
      SplitKeepsCount(s, split, msecs);
  }

  /**
  Over every run, overlapping tests included, `total_util` is the truncated utilisation of the listed
  and the admitted-but-unlisted tasks as a 64-bit word, hence exactly that while it fits in 64 bits.
  */
  lemma {:induction false} FineRunsCounted(s: SplitState, es: seq<FineEvent>, msecs: nat -> nat)
    requires Sound(s.base) && FineLegal(s, es, msecs) && CountedModulo(s)
    ensures var s' := FineExec(s, es, msecs);
            CountedModulo(s') && (Counted(s') < TWO_64 ==> s'.base.util == Counted(s'))
    decreases |es|
  {
    if es == [] {
      if Counted(s) < TWO_64 {
        SmallWord(s.base.util, Counted(s));
      }
    } else {
      FineKeepsCount(s, es[0], msecs);
      FineRunsCounted(FineStep(s, es[0], msecs), es[1..], msecs);
    }
  }

  // ---------------------------------------------------------------- the limit

  /** An update whose share no longer fits: the counter has moved on since it was tested. */
  ghost predicate LateUpdate(s: SplitState, e: FineEvent) {
    e.Update? && e.which < |s.flights| && s.base.util + Share(s.flights[e.which]) >= MAX_UTIL
  }

  /**
  One step. With the counter exact and below the limit, a step takes it to the limit or beyond if and
  only if it is an update whose share no longer fits; every other step keeps it exact and below.
  */
  lemma LimitBrokenExactly(s: SplitState, e: FineEvent, msecs: nat -> nat)
    requires Sound(s.base) && FineEnabled(s, e) && Accounted(s)
    ensures FineStep(s, e, msecs).base.util >= MAX_UTIL <==> LateUpdate(s, e)
    ensures !LateUpdate(s, e) ==> Accounted(FineStep(s, e, msecs))
  {
    match e
    case Test(k) =>
      var f := s.flights[k];
      WeighUpdate(s.flights, k, Tested(f.pid, f.period, f.procTime), FlightUtil);
      WeighWithout(s.flights, k, FlightUtil);
    case Update(k) =>
      var f := s.flights[k];
      AdditionExact(s.base.util, f.period, f.procTime);
      WeighUpdate(s.flights, k, Admitted(f.pid, f.period, f.procTime), FlightUtil);
    case Split(split) =>
      SplitStepKeepsAccount(s, split, msecs);
  }

  function TestedUtil(f: Flight): nat {
    if f.Tested? then Share(f) else 0
  }

  /** The shares that have passed the test and are still to be added. */
  ghost function Pending(s: SplitState): nat {
    Weigh(s.flights, TestedUtil)
  }

  /** The counter has room for every pending share. */
  ghost predicate Budgeted(s: SplitState) {
    Accounted(s) && s.base.util + Pending(s) < MAX_UTIL
  }

  /** The share a step tests against the counter, if it is a test. */
  ghost function TestedShare(s: SplitState, e: FineEvent): Option<nat>
    requires FineEnabled(s, e)
  {
    match e
    case Test(k) => Some(Share(s.flights[k]))
    case Split(Admit(k)) => Some(Share(s.flights[k]))
    case Split(Whole(Register(_, pid, period, procTime))) =>
      if FirstIndex(s.base.tasks, pid) >= 0 then None else Some(TruncUtil(procTime, period))
    case _ => None
  }

  /** A test that lets a share through although it does not fit in on top of the pending ones. */
  ghost predicate Overdraft(s: SplitState, e: FineEvent)
    requires FineEnabled(s, e)
  {
    var share := TestedShare(s, e);
    share.Some? && s.base.util + share.value < MAX_UTIL <= s.base.util + Pending(s) + share.value
  }

  lemma {:induction false} NothingPending(fs: seq<Flight>)
    requires forall k :: 0 <= k < |fs| ==> !fs[k].Tested?
    ensures Weigh(fs, TestedUtil) == 0
  {
    if fs != [] {
      NothingPending(fs[..|fs| - 1]);
    }
  }

  lemma PendingAtLeast(fs: seq<Flight>, k: nat)
    requires k < |fs|
    ensures Weigh(fs, TestedUtil) >= TestedUtil(fs[k])
  {
    WeighWithout(fs, k, TestedUtil);
  }

  /** Apart from a registration no whole call adds to the counter. */
  lemma WholeNeverAdds(s: SplitState, w: Event, msecs: nat -> nat)
    requires Sound(s.base) && Enabled(s.base, w) && Accounted(s) && !w.Register?
    ensures Step(s.base, w, msecs).util <= s.base.util
  {
    if w.Deregister? {
      var k := FirstIndex(s.base.tasks, w.pid);
      if k >= 0 {
        SumUtilRemove(s.base.tasks, k);
        SubtractionExact(s.base.util, TruncUtil(s.base.tasks[k].procTime, s.base.tasks[k].period));
      }
    } else {
      OthersKeepTasks(s.base, w, msecs);
    }
  }

  lemma TestBudget(s: SplitState, k: nat, msecs: nat -> nat)
    requires Sound(s.base) && FineEnabled(s, Test(k)) && Budgeted(s)
    ensures Budgeted(FineStep(s, Test(k), msecs)) <==> !Overdraft(s, Test(k))
  {
    var f := s.flights[k];
    LimitBrokenExactly(s, Test(k), msecs);
    AdditionExact(s.base.util, f.period, f.procTime);
    WeighUpdate(s.flights, k, Tested(f.pid, f.period, f.procTime), TestedUtil);
    WeighWithout(s.flights, k, TestedUtil);
  }

  lemma UpdateBudget(s: SplitState, k: nat, msecs: nat -> nat)
    requires Sound(s.base) && FineEnabled(s, Update(k)) && Budgeted(s)
    ensures Budgeted(FineStep(s, Update(k), msecs))
  {
    var f := s.flights[k];
    PendingAtLeast(s.flights, k);
    LimitBrokenExactly(s, Update(k), msecs);
    AdditionExact(s.base.util, f.period, f.procTime);
    WeighUpdate(s.flights, k, Admitted(f.pid, f.period, f.procTime), TestedUtil);
  }

  lemma AdmitBudget(s: SplitState, k: nat, msecs: nat -> nat)
    requires Sound(s.base) && SplitEnabled(s, Admit(k)) && Budgeted(s)
    ensures Budgeted(SplitStep(s, Admit(k), msecs)) <==> !Overdraft(s, Split(Admit(k)))
  {
    var f := s.flights[k];
    SplitStepKeepsAccount(s, Admit(k), msecs);
    AdditionExact(s.base.util, f.period, f.procTime);
    WeighUpdate(s.flights, k, Admitted(f.pid, f.period, f.procTime), TestedUtil);
    WeighWithout(s.flights, k, TestedUtil);
  }

  lemma WholeBudget(s: SplitState, w: Event, msecs: nat -> nat)
    requires Sound(s.base) && Enabled(s.base, w) && Budgeted(s)
    ensures Budgeted(SplitStep(s, Whole(w), msecs)) <==> !Overdraft(s, Split(Whole(w)))
  {
    SplitStepKeepsAccount(s, Whole(w), msecs);
    if w.Register? {
      AdditionExact(s.base.util, w.period, w.procTime);
    } else {
      WholeNeverAdds(s, w, msecs);
    }
  }

  /**
  One step. With room for whatever is pending, a step keeps it so if and only if it is not a test that
  lets a share through on top of pending ones that leave no room for it.
  */
  lemma BudgetKeptExactly(s: SplitState, e: FineEvent, msecs: nat -> nat)
    requires Sound(s.base) && FineEnabled(s, e) && Budgeted(s)
    ensures Budgeted(FineStep(s, e, msecs)) <==> !Overdraft(s, e)
  {
    match e
    case Test(k) => TestBudget(s, k, msecs);
    case Update(k) => UpdateBudget(s, k, msecs);
    case Split(Check(pid, period, procTime)) =>
      SplitStepKeepsAccount(s, e.e, msecs);
      WeighAppend(s.flights, Checked(pid, period, procTime), TestedUtil);
    case Split(Admit(k)) => AdmitBudget(s, k, msecs);
    case Split(Append(k, addr)) =>
      SplitStepKeepsAccount(s, e.e, msecs);
      WeighWithout(s.flights, k, TestedUtil);
    case Split(Whole(w)) => WholeBudget(s, w, msecs);
  }

  ghost predicate WithinBudget(s: SplitState, es: seq<FineEvent>, msecs: nat -> nat)
    requires Sound(s.base) && FineLegal(s, es, msecs)
    decreases |es|
  {
    es == [] || (!Overdraft(s, es[0]) && WithinBudget(FineStep(s, es[0], msecs), es[1..], msecs))
  }

  /**
  Whole runs, with the test apart from its update. As long as no test overdraws, `total_util` counts
  exactly the listed and the admitted tasks, stays below the limit with room for whatever is pending,
  and no addition or subtraction the next step may perform wraps.
  */
  lemma {:induction false} WithinBudgetAccounted(s: SplitState, es: seq<FineEvent>, msecs: nat -> nat)
    requires Sound(s.base) && FineLegal(s, es, msecs) && Budgeted(s) && WithinBudget(s, es, msecs)
    ensures var s' := FineExec(s, es, msecs); Budgeted(s') && ArithmeticExact(s')
    decreases |es|
  {
    if es == [] {
      AccountedIsExact(s);
    } else {
      BudgetKeptExactly(s, es[0], msecs);
      WithinBudgetAccounted(FineStep(s, es[0], msecs), es[1..], msecs);
    }
  }

  lemma WithinBudgetFromBoot(now: nat, es: seq<FineEvent>, msecs: nat -> nat)
    requires FineLegal(SplitState(Boot(now), []), es, msecs)
    requires WithinBudget(SplitState(Boot(now), []), es, msecs)
    ensures var s := FineExec(SplitState(Boot(now), []), es, msecs); Accounted(s) && ArithmeticExact(s)
  {
    WithinBudgetAccounted(SplitState(Boot(now), []), es, msecs);
  }

  /** Reachable from loading the module by a run in which no test overdraws. */
  ghost predicate ReachableWithin(s: SplitState, msecs: nat -> nat) {
    exists now: nat, es: seq<FineEvent> ::
      now > 0 && FineLegal(SplitState(Boot(now), []), es, msecs)
      && WithinBudget(SplitState(Boot(now), []), es, msecs)
      && FineExec(SplitState(Boot(now), []), es, msecs) == s
  }

  lemma ReachableWithinAccounted(s: SplitState, msecs: nat -> nat)
    requires ReachableWithin(s, msecs)
    ensures Accounted(s)
  {
    var now: nat, es :| now > 0 && FineLegal(SplitState(Boot(now), []), es, msecs)
      && WithinBudget(SplitState(Boot(now), []), es, msecs)
      && FineExec(SplitState(Boot(now), []), es, msecs) == s;
    WithinBudgetFromBoot(now, es, msecs);
  }

  // ---------------------------------------------------------------- tests that do not overlap

  /** No test while another flight is between its test and its update. */
  ghost predicate NoOverlap(s: SplitState, e: FineEvent)
    requires FineEnabled(s, e)
  {
    TestedShare(s, e).Some? ==> forall k :: 0 <= k < |s.flights| ==> !s.flights[k].Tested?
  }

  ghost predicate OverlapFree(s: SplitState, es: seq<FineEvent>, msecs: nat -> nat)
    requires Sound(s.base) && FineLegal(s, es, msecs)
    decreases |es|
  {
    es == [] || (NoOverlap(s, es[0]) && OverlapFree(FineStep(s, es[0], msecs), es[1..], msecs))
  }

  lemma {:induction false} OverlapFreeIsWithinBudget(s: SplitState, es: seq<FineEvent>, msecs: nat -> nat)
    requires Sound(s.base) && FineLegal(s, es, msecs) && OverlapFree(s, es, msecs)
    ensures WithinBudget(s, es, msecs)
    decreases |es|
  {
    if es != [] {
      if TestedShare(s, es[0]).Some? {
        NothingPending(s.flights);
      }
      OverlapFreeIsWithinBudget(FineStep(s, es[0], msecs), es[1..], msecs);
    }
  }

  lemma OverlapFreeFromBoot(now: nat, es: seq<FineEvent>, msecs: nat -> nat)
    requires FineLegal(SplitState(Boot(now), []), es, msecs)
    requires OverlapFree(SplitState(Boot(now), []), es, msecs)
    ensures var s := FineExec(SplitState(Boot(now), []), es, msecs); Accounted(s) && ArithmeticExact(s)
  {
    OverlapFreeIsWithinBudget(SplitState(Boot(now), []), es, msecs);
    WithinBudgetFromBoot(now, es, msecs);
  }

  /** Test and update stay one section while every step is a step of Admission's machine. */
  ghost predicate Locked(es: seq<FineEvent>) {
    forall e <- es :: e.Split?
  }

  lemma SplitTestsNobody(s: SplitState, e: SplitEvent, msecs: nat -> nat)
    requires Sound(s.base) && SplitEnabled(s, e) && forall f <- s.flights :: !f.Tested?
    ensures forall f <- SplitStep(s, e, msecs).flights :: !f.Tested?
  {
  }

  lemma {:induction false} LockedIsWithinBudget(s: SplitState, es: seq<FineEvent>, msecs: nat -> nat)
    requires Sound(s.base) && FineLegal(s, es, msecs) && Locked(es) && forall f <- s.flights :: !f.Tested?
    ensures WithinBudget(s, es, msecs)
    decreases |es|
  {
    if es != [] {
      NothingPending(s.flights);
      SplitTestsNobody(s, es[0].e, msecs);
      LockedIsWithinBudget(FineStep(s, es[0], msecs), es[1..], msecs);
    }
  }

  /** Were test and update one section, the limit would hold under every interleaving with other calls. */
  lemma LockedFromBoot(now: nat, es: seq<FineEvent>, msecs: nat -> nat)
    requires FineLegal(SplitState(Boot(now), []), es, msecs) && Locked(es)
    ensures var s := FineExec(SplitState(Boot(now), []), es, msecs); Accounted(s) && ArithmeticExact(s)
  {
    LockedIsWithinBudget(SplitState(Boot(now), []), es, msecs);
    WithinBudgetFromBoot(now, es, msecs);
  }

  /** A run of whole calls is one of these. */
  lemma {:induction false} WholeRun(s: State, es: seq<Event>, msecs: nat -> nat) returns (fs: seq<FineEvent>)
    requires Sound(s) && Legal(s, es, msecs)
    ensures Locked(fs) && FineLegal(SplitState(s, []), fs, msecs)
    ensures FineExec(SplitState(s, []), fs, msecs) == SplitState(Exec(s, es, msecs), [])
    decreases |es|
  {
    fs := [];
    if es != [] {
      fs := WholeRun(Step(s, es[0], msecs), es[1..], msecs);
      FineCons(SplitState(s, []), Split(Whole(es[0])), fs, msecs);
      fs := [Split(Whole(es[0]))] + fs;
    }
  }

  lemma WholeReachable(s: State, msecs: nat -> nat)
    requires Reachable(s, msecs)
    ensures ReachableWithin(SplitState(s, []), msecs)
  {
    var now: nat, es :| now > 0 && Legal(Boot(now), es, msecs) && Exec(Boot(now), es, msecs) == s;
    var fs := WholeRun(Boot(now), es, msecs);
    LockedIsWithinBudget(SplitState(Boot(now), []), fs, msecs);
  }

  // ---------------------------------------------------------------- the converse

  ghost function TestedFlights(fs: seq<Flight>): set<nat> {
    set k | 0 <= k < |fs| && fs[k].Tested?
  }

  /** From any state, letting the pending updates run, and nothing else, adds exactly the pending shares. */
  lemma {:induction false} PendingUpdatesAdd(s: SplitState, msecs: nat -> nat) returns (es: seq<FineEvent>)
    requires Sound(s.base) && s.base.util + Pending(s) < TWO_64
    ensures forall e <- es :: e.Update?
    ensures FineLegal(s, es, msecs)
    ensures var s' := FineExec(s, es, msecs);
            s'.base.util == s.base.util + Pending(s) && TestedFlights(s'.flights) == {}
    decreases TestedFlights(s.flights)
  {
    if TestedFlights(s.flights) == {} {
      forall k | 0 <= k < |s.flights| ensures !s.flights[k].Tested? {
        assert k !in TestedFlights(s.flights);
      }
      NothingPending(s.flights);
      es := [];
    } else {
      var k :| k in TestedFlights(s.flights);
      var f := s.flights[k];
      var next := FineStep(s, Update(k), msecs);
      PendingAtLeast(s.flights, k);
      WeighUpdate(s.flights, k, Admitted(f.pid, f.period, f.procTime), TestedUtil);
      assert TestedFlights(next.flights) == TestedFlights(s.flights) - {k};
      var rest := PendingUpdatesAdd(next, msecs);
      es := [Update(k)] + rest;
      assert es[1..] == rest;
    }
  }

  /** So the pending updates keep the counter below the limit if and only if it has room for all of them. */
  lemma BudgetExactly(s: SplitState, msecs: nat -> nat) returns (es: seq<FineEvent>)
    requires Sound(s.base) && Accounted(s) && s.base.util + Pending(s) < TWO_64
    ensures (forall e <- es :: e.Update?) && FineLegal(s, es, msecs)
    ensures TestedFlights(FineExec(s, es, msecs).flights) == {}
    ensures FineExec(s, es, msecs).base.util < MAX_UTIL <==> Budgeted(s)
  {
    es := PendingUpdatesAdd(s, msecs);
  }

  /** One test that overdraws is enough: the updates that are pending behind it take the counter to the limit. */
  lemma OverdraftBreaksLimit(s: SplitState, e: FineEvent, msecs: nat -> nat) returns (es: seq<FineEvent>)
    requires Sound(s.base) && FineEnabled(s, e) && Budgeted(s) && Overdraft(s, e)
    ensures es != [] && es[0] == e && forall u <- es[1..] :: u.Update?
    ensures FineLegal(s, es, msecs) && FineExec(s, es, msecs).base.util >= MAX_UTIL
  {
    var next := FineStep(s, e, msecs);
    BudgetKeptExactly(s, e, msecs);
    LimitBrokenExactly(s, e, msecs);
    OverdraftPending(s, e, msecs);
    var updates := BudgetExactly(next, msecs);
    FineCons(s, e, updates, msecs);
    es := [e] + updates;
  }

  lemma OverdraftPending(s: SplitState, e: FineEvent, msecs: nat -> nat)
    requires Sound(s.base) && FineEnabled(s, e) && Budgeted(s) && Overdraft(s, e)
    ensures Pending(FineStep(s, e, msecs)) <= 2 * MAX_UTIL
  {
    match e
    case Test(k) =>
      var f := s.flights[k];
      AdditionExact(s.base.util, f.period, f.procTime);
      WeighUpdate(s.flights, k, Tested(f.pid, f.period, f.procTime), TestedUtil);
    case Split(Admit(k)) =>
      var f := s.flights[k];
      AdditionExact(s.base.util, f.period, f.procTime);
      WeighUpdate(s.flights, k, Admitted(f.pid, f.period, f.procTime), TestedUtil);
    case Split(Whole(w)) =>
  }

  /** An overlap that does not fit breaks the limit: two tested flights, updated one after the other. */
  lemma OverlapBreaksLimit(s: SplitState, i: nat, j: nat, msecs: nat -> nat)
    requires Sound(s.base) && Accounted(s) && i != j
    requires FineEnabled(s, Update(i)) && FineEnabled(s, Update(j))
    requires MAX_UTIL <= s.base.util + Share(s.flights[i]) + Share(s.flights[j]) < TWO_64
    ensures FineStep(FineStep(s, Update(i), msecs), Update(j), msecs).base.util >= MAX_UTIL
  {
    var next := FineStep(s, Update(i), msecs);
    AdditionExact(s.base.util, s.flights[i].period, s.flights[i].procTime);
    assert next.flights[j] == s.flights[j];
    NoWrap(next.base.util, Share(s.flights[j]));
  }

  lemma NoWrap(a: Word64, b: Word64)
    requires a + b < TWO_64
    ensures Add64(a, b) == a + b
  {
  }

  /** A test whose 64-bit addition wraps. */
  ghost predicate Wraps(s: SplitState, e: FineEvent)
    requires FineEnabled(s, e)
  {
    TestedShare(s, e).Some? && s.base.util + TestedShare(s, e).value >= TWO_64
  }

  ghost predicate Unwrapped(s: SplitState, es: seq<FineEvent>, msecs: nat -> nat)
    requires Sound(s.base) && FineLegal(s, es, msecs)
    decreases |es|
  {
    es == [] || (!Wraps(s, es[0]) && Unwrapped(FineStep(s, es[0], msecs), es[1..], msecs))
  }

  lemma UnwrappedCons(s: SplitState, e: FineEvent, es: seq<FineEvent>, msecs: nat -> nat)
    requires Sound(s.base) && FineEnabled(s, e) && FineLegal(FineStep(s, e, msecs), es, msecs)
    requires !Wraps(s, e)
    ensures FineLegal(s, [e] + es, msecs)
    ensures FineExec(s, [e] + es, msecs) == FineExec(FineStep(s, e, msecs), es, msecs)
    ensures Unwrapped(s, [e] + es, msecs) <==> Unwrapped(FineStep(s, e, msecs), es, msecs)
  {
    assert ([e] + es)[1..] == es;
  }

  const LONG := 1048576                         // a period of 2^20: the share is proc_time itself

  ghost function TwoTested(): SplitState {
    SplitState(Boot(1), [Tested(1, LONG, 700000), Tested(2, LONG, 700000)])
  }

  /** Two registrations are checked, then both tested against the same counter; any run goes on from there. */
  lemma TwoTestedReachable(rest: seq<FineEvent>, msecs: nat -> nat) returns (es: seq<FineEvent>)
    requires FineLegal(TwoTested(), rest, msecs)
    ensures FineLegal(SplitState(Boot(1), []), es, msecs)
    ensures FineExec(SplitState(Boot(1), []), es, msecs) == FineExec(TwoTested(), rest, msecs)
    ensures Unwrapped(SplitState(Boot(1), []), es, msecs) <==> Unwrapped(TwoTested(), rest, msecs)
  {
    var a, b := Checked(1, LONG, 700000), Checked(2, LONG, 700000);
    var s0, s1, s2 := SplitState(Boot(1), []), SplitState(Boot(1), [a]), SplitState(Boot(1), [a, b]);
    var s3 := SplitState(Boot(1), [Tested(1, LONG, 700000), b]);
    LongShare(a);
    assert FineStep(s3, Test(1), msecs) == TwoTested();
    UnwrappedCons(s3, Test(1), rest, msecs);
    es := [Test(1)] + rest;
    assert FineStep(s2, Test(0), msecs) == s3;
    UnwrappedCons(s2, Test(0), es, msecs);
    es := [Test(0)] + es;
    assert FineStep(s1, Split(Check(2, LONG, 700000)), msecs) == s2;
    UnwrappedCons(s1, Split(Check(2, LONG, 700000)), es, msecs);
    es := [Split(Check(2, LONG, 700000))] + es;
    assert FineStep(s0, Split(Check(1, LONG, 700000)), msecs) == s1;
    UnwrappedCons(s0, Split(Check(1, LONG, 700000)), es, msecs);
    es := [Split(Check(1, LONG, 700000))] + es;
  }

  lemma LongShare(f: Flight)
    requires f.period == LONG && f.procTime == 700000
    ensures Share(f) == 700000
  {
  }

  lemma TwoTestedPending()
    ensures Pending(TwoTested()) == 1400000
  {
    var a, b := Tested(1, LONG, 700000), Tested(2, LONG, 700000);
    LongShare(a);
    LongShare(b);
    WeighAppend([], a, TestedUtil);
    WeighAppend([a], b, TestedUtil);
    assert [] + [a] == [a] && [a] + [b] == TwoTested().flights;
  }

  /** Two registrations of 700000 units each are admitted on an empty system: 1400000 against 726663. */
  lemma OvershootWitness(msecs: nat -> nat) returns (es: seq<FineEvent>)
    ensures FineLegal(SplitState(Boot(1), []), es, msecs)
    ensures FineExec(SplitState(Boot(1), []), es, msecs).base.util == 1400000
  {
    TwoTestedPending();
    var updates := PendingUpdatesAdd(TwoTested(), msecs);
    es := TwoTestedReachable(updates, msecs);
  }
}
