/**
Safety over whole runs of the scheduler: what holds in every reachable state, whatever the
interleaving of register, yield, deregister, timer callback, dispatch and the passing of time.
*/
module Runs {
  import opened Words
  import opened Scheduler
  import opened Admission

  // ---------------------------------------------------------------- the invariants

  /** The current task is never asleep. */
  ghost predicate CtAwake(s: State) {
    s.ct.Some? ==>
      forall i :: 0 <= i < |s.tasks| && s.tasks[i].addr == s.ct.value ==> s.tasks[i].state != Sleeping
  }

  /**
  A timer is pending exactly for the sleeping tasks that have yielded (`nextDdl` is no longer 0),
  and a task that is awake has yielded.
  */
  ghost predicate TimersExact(s: State) {
    && s.now > 0
    && forall i :: 0 <= i < |s.tasks| ==>
         && (s.tasks[i].addr in s.timers <==> s.tasks[i].state == Sleeping && s.tasks[i].nextDdl != 0)
         && (s.tasks[i].state != Sleeping ==> s.tasks[i].nextDdl != 0)
  }

  /** Rate-monotonic order: nothing READY beats the current task; without one, nothing is READY. */
  ghost predicate Quiet(s: State) {
    && (s.ct.None? ==> forall j :: 0 <= j < |s.tasks| ==> s.tasks[j].state != Ready)
    && (s.ct.Some? ==>
          forall i, j ::
            && 0 <= i < |s.tasks| && s.tasks[i].addr == s.ct.value
            && 0 <= j < |s.tasks| && s.tasks[j].state == Ready
            ==> s.tasks[i].period <= s.tasks[j].period)
  }

  ghost predicate UtilExact(s: State) {
    s.util == SumUtil(s.tasks) && s.util < MAX_UTIL
  }

  /** What needs nothing of the counter. */
  ghost predicate Orderly(s: State) {
    && Sound(s)
    && PidsUnique(s.tasks)
    && CtAwake(s)
    && TimersExact(s)
    && (!s.woken ==> Quiet(s))
  }

  ghost predicate Inv(s: State) {
    Orderly(s) && UtilExact(s)
  }

  // ---------------------------------------------------------------- one step

  lemma PidsKept(s: State, e: Event, msecs: nat -> nat)
    requires Sound(s) && Enabled(s, e) && PidsUnique(s.tasks)
    ensures PidsUnique(Step(s, e, msecs).tasks)
  {
    if !e.Register? && !e.Deregister? {
      OthersKeepTasks(s, e, msecs);
    }
  }

  lemma DeregisterKeepsCtAwake(s: State, pid: Pid)
    requires Sound(s) && CtAwake(s)
    ensures CtAwake(DeregisterTask(s, pid))
  {
    assert forall t <- DeregisterTask(s, pid).tasks :: t in s.tasks;
  }

  lemma RegisterKeepsCtAwake(s: State, addr: nat, pid: Pid, period: Period, procTime: Word64)
    requires Sound(s) && !HasAddr(s.tasks, addr) && CtAwake(s)
    ensures CtAwake(RegisterTask(s, addr, pid, period, procTime))
  {
    assert s.ct != Some(addr);
  }

  lemma CtAwakeKept(s: State, e: Event, msecs: nat -> nat)
    requires Sound(s) && Enabled(s, e) && CtAwake(s)
    ensures CtAwake(Step(s, e, msecs))
  {
    match e
    case Register(addr, pid, period, procTime) => RegisterKeepsCtAwake(s, addr, pid, period, procTime);
    case Deregister(pid) => DeregisterKeepsCtAwake(s, pid);
    case Dispatch => DispatchKeepsCtAwake(s);
    case _ =>
  }

  lemma DispatchKeepsCtAwake(s: State)
    requires Sound(s) && CtAwake(s)
    ensures CtAwake(DispatchOnce(s))
  {
  }

  /** With unique pids the callback's argument selects the task that owns the timer, and only it. */
  lemma FireHitsOwner(s: State, a: nat, i: nat)
    requires Sound(s) && PidsUnique(s.tasks) && a in s.timers && i < |s.tasks|
    ensures s.tasks[i].pid == s.timers[a].data <==> s.tasks[i].addr == a
  {
    var k :| 0 <= k < |s.tasks| && s.tasks[k].addr == a && s.tasks[k].pid == s.timers[a].data;
    if i != k {
      assert s.tasks[i].pid != s.tasks[k].pid && s.tasks[i].addr != s.tasks[k].addr;
    }
  }

  lemma TimersKept(s: State, e: Event, msecs: nat -> nat)
    requires Sound(s) && Enabled(s, e) && PidsUnique(s.tasks) && CtAwake(s) && TimersExact(s)
    ensures TimersExact(Step(s, e, msecs))
  {
    match e
    case Register(addr, _, _, _) => assert addr !in s.timers;
    case Yield(pid) => YieldKeepsTimers(s, pid, msecs);
    case Deregister(pid) => DeregisterKeepsTimers(s, pid);
    case TimerFires(addr) => FireKeepsTimers(s, addr);
    case Dispatch => DispatchKeepsTimers(s);
    case Tick(_) =>
  }

  lemma YieldKeepsTimers(s: State, pid: Pid, msecs: nat -> nat)
    requires Sound(s) && TimersExact(s)
    ensures TimersExact(YieldTask(s, pid, msecs))
  {
  }

  lemma DeregisterKeepsTimers(s: State, pid: Pid)
    requires Sound(s) && TimersExact(s)
    ensures TimersExact(DeregisterTask(s, pid))
  {
    var k := FirstIndex(s.tasks, pid);
    var s' := DeregisterTask(s, pid);
    forall i | k >= 0 && 0 <= i < |s'.tasks|
      ensures s'.tasks[i].addr in s'.timers <==> s'.tasks[i].state == Sleeping && s'.tasks[i].nextDdl != 0
    {
      var j := if i < k then i else i + 1;
      assert s'.tasks[i] == s.tasks[j] && s.tasks[j].addr != s.tasks[k].addr;
    }
  }

  lemma FireKeepsTimers(s: State, a: nat)
    requires Sound(s) && PidsUnique(s.tasks) && TimersExact(s) && a in s.timers
    ensures TimersExact(FireTimer(s, a))
  {
    forall i | 0 <= i < |s.tasks| ensures s.tasks[i].pid == s.timers[a].data <==> s.tasks[i].addr == a {
      FireHitsOwner(s, a, i);
    }
  }

  lemma DispatchKeepsTimers(s: State)
    requires Sound(s) && CtAwake(s) && TimersExact(s)
    ensures TimersExact(DispatchOnce(s))
  {
    forall i | 0 <= i < |s.tasks|
      ensures DispatchOnce(s).tasks[i] == s.tasks[i].(state := DispatchOnce(s).tasks[i].state)
      ensures DispatchOnce(s).tasks[i].state == Sleeping <==> s.tasks[i].state == Sleeping
    {
      DispatchKeepsSleepers(s, i);
    }
  }

  /** A dispatch changes states only, and only between READY and RUNNING. */
  lemma DispatchKeepsSleepers(s: State, i: nat)
    requires Sound(s) && CtAwake(s) && i < |s.tasks|
    ensures var t' := DispatchOnce(s).tasks[i];
            && t' == s.tasks[i].(state := t'.state)
            && (t'.state == Sleeping <==> s.tasks[i].state == Sleeping)
  {
    var h := Highest(s.tasks);
    if h >= 0 && i != h {
      assert s.tasks[i].addr != s.tasks[h].addr;
    }
  }

  /** A dispatch establishes the rate-monotonic order from any state. */
  lemma DispatchQuiets(s: State)
    requires Sound(s)
    ensures Quiet(DispatchOnce(s))
  {
    var h := Highest(s.tasks);
    if s.ct.Some? {
      var c := AddrIndex(s.tasks, s.ct.value);
      assert forall i :: 0 <= i < |s.tasks| && s.tasks[i].addr == s.ct.value ==> i == c;
    }
    if h >= 0 {
      assert forall i :: 0 <= i < |s.tasks| && s.tasks[i].addr == s.tasks[h].addr ==> i == h;
    }
  }

  lemma RegisterKeepsQuiet(s: State, addr: nat, pid: Pid, period: Period, procTime: Word64)
    requires Sound(s) && !HasAddr(s.tasks, addr) && Quiet(s)
    ensures Quiet(RegisterTask(s, addr, pid, period, procTime))
  {
    assert s.ct != Some(addr);
  }

  lemma RemoveKeepsQuiet(s: State, k: nat, s': State)
    requires Quiet(s) && k < |s.tasks| && s'.tasks == Remove(s.tasks, k) && s'.ct == s.ct
    ensures Quiet(s')
  {
    var ts, ts' := s.tasks, s'.tasks;
    forall i | 0 <= i < |ts'| ensures ts'[i] == ts[if i < k then i else i + 1] {
    }
  }

  lemma DeregisterKeepsQuiet(s: State, pid: Pid)
    requires Sound(s) && Quiet(s)
    ensures var s' := DeregisterTask(s, pid); s'.woken || Quiet(s')
  {
    var k := FirstIndex(s.tasks, pid);
    if k >= 0 && s.ct != Some(s.tasks[k].addr) {
      RemoveKeepsQuiet(s, k, DeregisterTask(s, pid));
    }
  }

  lemma QuietKept(s: State, e: Event, msecs: nat -> nat)
    requires Sound(s) && Enabled(s, e) && (!s.woken ==> Quiet(s))
    ensures var s' := Step(s, e, msecs); s'.woken || Quiet(s')
  {
    if e.Dispatch? {
      DispatchQuiets(s);
    } else if !s.woken {
      match e
      case Register(addr, pid, period, procTime) => RegisterKeepsQuiet(s, addr, pid, period, procTime);
      case Deregister(pid) => DeregisterKeepsQuiet(s, pid);
      case _ =>
    }
  }

  lemma UtilKept(s: State, e: Event, msecs: nat -> nat)
    requires Sound(s) && Enabled(s, e) && UtilExact(s)
    ensures UtilExact(Step(s, e, msecs))
  {
    WholeKeepsAccount(SplitState(s, []), e, msecs);
  }

  lemma StepKeepsOrder(s: State, e: Event, msecs: nat -> nat)
    requires Orderly(s) && Enabled(s, e)
    ensures Orderly(Step(s, e, msecs))
  {
    PidsKept(s, e, msecs);
    CtAwakeKept(s, e, msecs);
    TimersKept(s, e, msecs);
    QuietKept(s, e, msecs);
  }

  lemma StepKeepsInv(s: State, e: Event, msecs: nat -> nat)
    requires Inv(s) && Enabled(s, e)
    ensures Inv(Step(s, e, msecs))
  {
    StepKeepsOrder(s, e, msecs);
    UtilKept(s, e, msecs);
  }

  // ---------------------------------------------------------------- whole runs

  lemma {:induction false} RunKeepsInv(s: State, es: seq<Event>, msecs: nat -> nat)
    requires Inv(s) && Legal(s, es, msecs)
    ensures Inv(Exec(s, es, msecs))
    decreases |es|
  {
    if es != [] {
      StepKeepsInv(s, es[0], msecs);
      RunKeepsInv(Step(s, es[0], msecs), es[1..], msecs);
    }
  }

  lemma ReachableInv(s: State, msecs: nat -> nat)
    requires Reachable(s, msecs)
    ensures Inv(s)
  {
    var now: nat, es :| now > 0 && Legal(Boot(now), es, msecs) && Exec(Boot(now), es, msecs) == s;
    RunKeepsInv(Boot(now), es, msecs);
  }

  /**
  `ct` is NULL or the one listed task at that address, which is awake; pids are unique; an awake
  task has yielded; and a timer is pending exactly for the sleeping tasks that have yielded.
  */
  lemma ReachableWellFormed(s: State, msecs: nat -> nat)
    requires Reachable(s, msecs)
    ensures PidsUnique(s.tasks) && AddrsUnique(s.tasks)
    ensures s.ct.Some? ==> exists i :: 0 <= i < |s.tasks| && s.tasks[i].addr == s.ct.value && s.tasks[i].state != Sleeping
    ensures TimersExact(s)
    ensures forall a :: a in s.timers ==> TimerOwned(s.tasks, a, s.timers[a])
  {
    ReachableInv(s, msecs);
    if s.ct.Some? {
      var i :| 0 <= i < |s.tasks| && s.tasks[i].addr == s.ct.value;
      assert s.tasks[i].state != Sleeping;
    }
  }

  /** A due timer turns exactly its own task from SLEEPING to READY and changes no other task, nor `ct`. */
  lemma CallbackWakesOwner(s: State, a: nat, msecs: nat -> nat)
    requires Orderly(s) && Enabled(s, TimerFires(a))
    ensures var s' := Step(s, TimerFires(a), msecs);
            && (exists k :: 0 <= k < |s.tasks| && s.tasks[k].addr == a && s.tasks[k].state == Sleeping
                  && s'.tasks == s.tasks[k := s.tasks[k].(state := Ready)])
            && s'.ct == s.ct && s.ct != Some(a)
            && a !in s'.timers && s'.woken
  {
    var s' := Step(s, TimerFires(a), msecs);
    var k :| 0 <= k < |s.tasks| && s.tasks[k].addr == a && s.tasks[k].pid == s.timers[a].data;
    forall i | 0 <= i < |s.tasks|
      ensures s'.tasks[i] == s.tasks[k := s.tasks[k].(state := Ready)][i]
    {
      FireHitsOwner(s, a, i);
    }
    assert s'.tasks == s.tasks[k := s.tasks[k].(state := Ready)];
  }

  lemma {:induction false} ExecSnoc(s: State, es: seq<Event>, e: Event, msecs: nat -> nat)
    requires Sound(s) && Legal(s, es, msecs) && Enabled(Exec(s, es, msecs), e)
    ensures Legal(s, es + [e], msecs)
    ensures Exec(s, es + [e], msecs) == Step(Exec(s, es, msecs), e, msecs)
    decreases |es|
  {
    if es == [] {
      assert (es + [e])[1..] == [];
    } else {
      assert (es + [e])[1..] == es[1..] + [e];
      ExecSnoc(Step(s, es[0], msecs), es[1..], e, msecs);
    }
  }

  lemma ReachableStep(s: State, e: Event, msecs: nat -> nat)
    requires Reachable(s, msecs) && Sound(s) && Enabled(s, e)
    ensures Reachable(Step(s, e, msecs), msecs)
  {
    var now: nat, es :| now > 0 && Legal(Boot(now), es, msecs) && Exec(Boot(now), es, msecs) == s;
    ExecSnoc(Boot(now), es, e, msecs);
  }

  lemma ReachableBoot(now: nat, msecs: nat -> nat)
    requires now > 0
    ensures Reachable(Boot(now), msecs)
  {
    assert Legal(Boot(now), [], msecs) && Exec(Boot(now), [], msecs) == Boot(now);
  }

  /** A registration that passes both tests appends the new task and counts it. */
  lemma RegisterAdmitted(s: State, addr: nat, pid: Pid, period: Period, procTime: Word64, msecs: nat -> nat)
    returns (s': State)
    requires Reachable(s, msecs) && Sound(s) && !HasAddr(s.tasks, addr) && !HasPid(s.tasks, pid)
    requires s.util + TruncUtil(procTime, period) < MAX_UTIL
    ensures Reachable(s', msecs) && Sound(s')
    ensures s' == s.(util := s.util + TruncUtil(procTime, period),
                     tasks := s.tasks + [NewTask(addr, pid, period, procTime)])
  {
    s' := RegisterTask(s, addr, pid, period, procTime);
    AdditionExact(s.util, period, procTime);
    ReachableStep(s, Register(addr, pid, period, procTime), msecs);
  }

  // ---------------------------------------------------------------- priority

  /**
  In every reachable state with no pending wake-up the rate-monotonic order holds, and it is
  stable: any number of further dispatches leaves `ct` alone.
  */
  lemma QuiescentIsRateMonotonic(s: State, msecs: nat -> nat, n: nat)
    requires Reachable(s, msecs) && !s.woken
    ensures Quiet(s)
    ensures var es := seq(n, _ => Dispatch);
            Legal(s, es, msecs) && Exec(s, es, msecs).ct == s.ct && Quiet(Exec(s, es, msecs))
  {
    ReachableInv(s, msecs);
    DispatchesStable(s, msecs, n);
  }

  lemma QuietDispatchKeepsCt(s: State)
    requires Sound(s) && Quiet(s)
    ensures DispatchOnce(s).ct == s.ct
  {
  }

  lemma {:induction false} DispatchesStable(s: State, msecs: nat -> nat, n: nat)
    requires Sound(s) && Quiet(s)
    ensures var es := seq(n, _ => Dispatch);
            Legal(s, es, msecs) && Exec(s, es, msecs).ct == s.ct && Quiet(Exec(s, es, msecs))
    decreases n
  {
    if n > 0 {
      var es := seq(n, _ => Dispatch);
      assert es[1..] == seq(n - 1, _ => Dispatch);
      QuietDispatchKeepsCt(s);
      DispatchQuiets(s);
      DispatchesStable(DispatchOnce(s), msecs, n - 1);
    }
  }

  /**
  A dispatch that switches picks the earliest-registered READY task of minimum period, makes it
  RUNNING, leaves the displaced task READY and every other task as it was.
  */
  lemma DispatchSwitches(s: State)
    requires Sound(s) && DispatchOnce(s).ct != s.ct
    ensures var s' := DispatchOnce(s);
            && SameTasks(s.tasks, s'.tasks)
            && s'.ct.Some?
            && exists h :: IsHighest(s.tasks, h) && s.tasks[h].addr == s'.ct.value
                 && (s.ct.Some? ==> s.tasks[h].period < CtTask(s).period)
                 && forall i :: 0 <= i < |s.tasks| ==>
                      s'.tasks[i].state == if i == h then Running
                                           else if s.ct == Some(s.tasks[i].addr) then Ready
                                           else s.tasks[i].state
  {
    var h := Highest(s.tasks);
    assert IsHighest(s.tasks, h);
    assert forall i :: 0 <= i < |s.tasks| && s.tasks[i].addr == s.tasks[h].addr ==> i == h;
  }
}
