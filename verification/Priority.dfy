/**
Counting arguments over runs: how many tasks can be RUNNING at once, and how often the current
task can change while nobody yields.
*/
module Priority {
  import opened Words
  import opened Scheduler
  import opened Runs
  import opened Effects

  lemma SubsetSize<T>(a: set<T>, b: set<T>)
    requires a <= b
    ensures |a| <= |b|
  {
    assert b == a + (b - a);
  }

  // ---------------------------------------------------------------- RUNNING tasks

  ghost predicate Stray(s: State, i: nat)
    requires i < |s.tasks|
  {
    s.tasks[i].state == Running && s.ct != Some(s.tasks[i].addr)
  }

  /** The RUNNING tasks that are not `ct`. */
  ghost function Strays(s: State): set<nat> {
    set i | 0 <= i < |s.tasks| && Stray(s, i) :: s.tasks[i].addr
  }

  /** A yield that succeeds although some other task is current; it clears `ct` all the same. */
  ghost predicate ForeignYield(s: State, e: Event, msecs: nat -> nat) {
    && e.Yield? && YieldSucceeds(s, e.pid, msecs)
    && s.ct.Some? && s.ct != Some(s.tasks[LastIndex(s.tasks, e.pid)].addr)
  }

  /** Such a yield over a RUNNING task strands it: it stays RUNNING and nothing points to it. */
  ghost predicate StrandingYield(s: State, e: Event, msecs: nat -> nat)
    requires Sound(s)
  {
    ForeignYield(s, e, msecs) && CtTask(s).state == Running
  }

  ghost function StrandingYields(s: State, es: seq<Event>, msecs: nat -> nat): nat
    requires Sound(s) && Legal(s, es, msecs)
    decreases |es|
  {
    if es == [] then 0
    else (if StrandingYield(s, es[0], msecs) then 1 else 0) + StrandingYields(Step(s, es[0], msecs), es[1..], msecs)
  }

  lemma DispatchStray(s: State, i: nat)
    requires Sound(s) && i < |s.tasks| && Stray(DispatchOnce(s), i)
    ensures Stray(s, i)
  {
  }

  lemma DispatchStrays(s: State)
    requires Sound(s)
    ensures Strays(DispatchOnce(s)) <= Strays(s)
  {
    var s' := DispatchOnce(s);
    forall a | a in Strays(s') ensures a in Strays(s) {
      var i :| 0 <= i < |s'.tasks| && Stray(s', i) && s'.tasks[i].addr == a;
      DispatchStray(s, i);
      assert s.tasks[i].addr == a;
    }
  }

  lemma DeregisterStrays(s: State, pid: Pid)
    requires Sound(s)
    ensures Strays(DeregisterTask(s, pid)) <= Strays(s)
  {
    var s' := DeregisterTask(s, pid);
    var k := FirstIndex(s.tasks, pid);
    forall a | k >= 0 && a in Strays(s') ensures a in Strays(s) {
      var i :| 0 <= i < |s'.tasks| && Stray(s', i) && s'.tasks[i].addr == a;
      var j := if i < k then i else i + 1;
      assert s.tasks[j] == s'.tasks[i] && s.tasks[j].addr != s.tasks[k].addr;
    }
  }

  lemma StepStrays(s: State, e: Event, msecs: nat -> nat)
    requires Sound(s) && Enabled(s, e)
    ensures Strays(Step(s, e, msecs)) <= Strays(s) + if StrandingYield(s, e, msecs) then {s.ct.value} else {}
  {
    match e
    case Dispatch => DispatchStrays(s);
    case Deregister(pid) => DeregisterStrays(s, pid);
    case Yield(pid) => YieldStrays(s, pid, msecs);
    case _ =>
      var s' := Step(s, e, msecs);
      forall a | a in Strays(s') ensures a in Strays(s) {
        var i :| 0 <= i < |s'.tasks| && Stray(s', i) && s'.tasks[i].addr == a;
        assert i < |s.tasks| && s.tasks[i].addr == a && s.tasks[i].state == Running;
      }
  }

  /** A successful yield frees `ct`; the task it named stays RUNNING unless it is the yielder. */
  lemma YieldStrays(s: State, pid: Pid, msecs: nat -> nat)
    requires Sound(s)
    ensures Strays(YieldTask(s, pid, msecs))
            <= Strays(s) + if StrandingYield(s, Yield(pid), msecs) then {s.ct.value} else {}
  {
    var s' := YieldTask(s, pid, msecs);
    forall a | a in Strays(s') ensures a in Strays(s) || (StrandingYield(s, Yield(pid), msecs) && a == s.ct.value) {
      var i :| 0 <= i < |s'.tasks| && Stray(s', i) && s'.tasks[i].addr == a;
      assert s.tasks[i].addr == a && s.tasks[i].state == Running;
      if s.ct == Some(a) {
        CtAt(s, i);
      }
    }
  }

  lemma {:induction false} RunStrays(s: State, es: seq<Event>, msecs: nat -> nat)
    requires Sound(s) && Legal(s, es, msecs)
    ensures |Strays(Exec(s, es, msecs))| <= |Strays(s)| + StrandingYields(s, es, msecs)
    decreases |es|
  {
    if es != [] {
      var s' := Step(s, es[0], msecs);
      StepStrays(s, es[0], msecs);
      if StrandingYield(s, es[0], msecs) {
        SubsetSize(Strays(s'), Strays(s) + {s.ct.value});
      } else {
        SubsetSize(Strays(s'), Strays(s));
      }
      RunStrays(s', es[1..], msecs);
    }
  }

  /**
  The RUNNING tasks other than `ct` never outnumber the yields so far that stranded one; in a run
  without any, a RUNNING task is `ct`, so there is at most one.
  */
  lemma RunningBounded(now: nat, es: seq<Event>, msecs: nat -> nat)
    requires Legal(Boot(now), es, msecs)
    ensures var s := Exec(Boot(now), es, msecs);
            && |Strays(s)| <= StrandingYields(Boot(now), es, msecs)
            && (StrandingYields(Boot(now), es, msecs) == 0 ==>
                  forall i :: 0 <= i < |s.tasks| && s.tasks[i].state == Running ==> s.ct == Some(s.tasks[i].addr))
  {
    RunStrays(Boot(now), es, msecs);
    var s := Exec(Boot(now), es, msecs);
    assert Strays(Boot(now)) == {};
    forall i | 0 <= i < |s.tasks| && s.tasks[i].state == Running && s.ct != Some(s.tasks[i].addr)
      ensures Strays(s) != {}
    {
      assert s.tasks[i].addr in Strays(s);
    }
  }

  /** The exact cause: a step adds a stray if and only if it is a yield over a RUNNING task's `ct`. */
  lemma StrayAppears(s: State, e: Event, msecs: nat -> nat)
    requires Sound(s) && Enabled(s, e)
    ensures Strays(Step(s, e, msecs)) <= Strays(s) <==> !StrandingYield(s, e, msecs)
  {
    StepStrays(s, e, msecs);
    if StrandingYield(s, e, msecs) {
      var s' := YieldTask(s, e.pid, msecs);
      var c := AddrIndex(s.tasks, s.ct.value);
      CtAt(s, c);
      assert s'.tasks[c] == s.tasks[c] && s.ct.value !in Strays(s);
      assert s'.tasks[c].addr in Strays(s');
    }
  }

  lemma YieldsFirst(s: State, k: nat, msecs: nat -> nat)
    requires Sound(s) && PidsUnique(s.tasks) && k < |s.tasks| && s.tasks[k].nextDdl == 0
    ensures var t := s.tasks[k];
            var ddl := s.now + msecs(t.period);
            var s' := YieldTask(s, t.pid, msecs);
            && s'.tasks == s.tasks[k := t.(nextDdl := ddl, state := Sleeping)]
            && s'.timers == s.timers[t.addr := Timer(t.pid, ddl)]
            && s'.ct == None && s'.now == s.now
  {
    assert LastIndex(s.tasks, s.tasks[k].pid) == k;
  }

  lemma Wakes(s: State, k: nat)
    requires Sound(s) && PidsUnique(s.tasks) && k < |s.tasks|
    requires s.tasks[k].addr in s.timers && s.timers[s.tasks[k].addr].data == s.tasks[k].pid
    ensures var s' := FireTimer(s, s.tasks[k].addr);
            && s'.tasks == s.tasks[k := s.tasks[k].(state := Ready)]
            && s'.timers == s.timers - {s.tasks[k].addr} && s'.ct == s.ct
  {
  }

  lemma RunsAlone(s: State, k: nat)
    requires Sound(s) && s.ct == None && k < |s.tasks|
    requires forall i :: 0 <= i < |s.tasks| ==> (s.tasks[i].state == Ready <==> i == k)
    ensures DispatchOnce(s).tasks == s.tasks[k := s.tasks[k].(state := Running)]
    ensures DispatchOnce(s).ct == Some(s.tasks[k].addr) && DispatchOnce(s).timers == s.timers
  {
    assert Highest(s.tasks) == k;
  }

  /** A sleeper's timer comes due and its callback runs. */
  lemma SleepsOut(s: State, k: nat, gap: nat, msecs: nat -> nat) returns (s': State)
    requires Reachable(s, msecs) && Sound(s) && PidsUnique(s.tasks) && k < |s.tasks|
    requires s.tasks[k].addr in s.timers && s.timers[s.tasks[k].addr] == Timer(s.tasks[k].pid, s.now + gap)
    ensures Reachable(s', msecs) && Sound(s') && s'.ct == s.ct
    ensures s'.tasks == s.tasks[k := s.tasks[k].(state := Ready)]
  {
    ReachableStep(s, Tick(gap), msecs);
    var due := s.(now := s.now + gap);
    Wakes(due, k);
    ReachableStep(due, TimerFires(s.tasks[k].addr), msecs);
    s' := FireTimer(due, s.tasks[k].addr);
  }

  /** A task yields for the first time and sleeps out its period. */
  lemma FirstWakeUp(s: State, k: nat, msecs: nat -> nat) returns (s': State)
    requires Reachable(s, msecs) && Sound(s) && PidsUnique(s.tasks) && k < |s.tasks| && s.tasks[k].nextDdl == 0
    ensures Reachable(s', msecs) && Sound(s') && s'.ct == None
    ensures s'.tasks == s.tasks[k := s.tasks[k].(nextDdl := s.now + msecs(s.tasks[k].period), state := Ready)]
  {
    var t := s.tasks[k];
    YieldsFirst(s, k, msecs);
    ReachableStep(s, Yield(t.pid), msecs);
    s' := SleepsOut(YieldTask(s, t.pid, msecs), k, msecs(t.period), msecs);
  }

  /** Then it is dispatched; no other task moves. */
  lemma FirstPeriod(s: State, k: nat, msecs: nat -> nat) returns (s': State)
    requires Reachable(s, msecs) && Sound(s) && PidsUnique(s.tasks) && k < |s.tasks| && s.tasks[k].nextDdl == 0
    requires forall i :: 0 <= i < |s.tasks| ==> s.tasks[i].state != Ready
    ensures Reachable(s', msecs) && Sound(s')
    ensures s'.tasks == s.tasks[k := s.tasks[k].(nextDdl := s.now + msecs(s.tasks[k].period), state := Running)]
  {
    s' := FirstWakeUp(s, k, msecs);
    RunsAlone(s', k);
    ReachableStep(s', Dispatch, msecs);
    s' := DispatchOnce(s');
  }

  /** Two tasks RUNNING at once: the second one yields while the first one runs, and is dispatched too. */
  lemma TwoRunning(msecs: nat -> nat) returns (s: State)
    ensures Reachable(s, msecs)
    ensures |s.tasks| == 2 && s.tasks[0].state == Running && s.tasks[1].state == Running
  {
    s := Boot(1);
    ReachableBoot(1, msecs);
    s := RegisterAdmitted(s, 0, 1, 1000, 1, msecs);
    s := RegisterAdmitted(s, 1, 2, 1000, 1, msecs);
    s := FirstPeriod(s, 0, msecs);
    s := FirstPeriod(s, 1, msecs);
  }

  // ---------------------------------------------------------------- a current task that does not run

  /** `ct` is set, but its task is not RUNNING. */
  ghost predicate CtIdle(s: State)
    requires Sound(s)
  {
    s.ct.Some? && CtTask(s).state != Running
  }

  /**
  A dispatch leaves `ct` set and not RUNNING if and only if `ct` was set and either nothing was READY
  (a RUNNING task is then demoted), or `ct` was READY itself and no READY task has a smaller period.
  */
  lemma DispatchIdlesExactly(s: State)
    requires Sound(s) && CtAwake(s)
    ensures CtIdle(DispatchOnce(s)) <==>
            s.ct.Some? && ((forall t <- s.tasks :: t.state != Ready)
                           || (CtTask(s).state == Ready
                               && forall t <- s.tasks :: t.state == Ready ==> CtTask(s).period <= t.period))
  {
    var s', h := DispatchOnce(s), Highest(s.tasks);
    if s'.ct.Some? {
      var c' := AddrIndex(s'.tasks, s'.ct.value);
      CtAt(s', c');
      assert s'.ct == s.ct ==> CtTask(s) == s.tasks[c'];
      assert h >= 0 ==> s.tasks[h] in s.tasks;
    }
  }

  /** Further dispatches do not bring it back: they change nothing but the wake-up flag. */
  lemma IdleStaysIdle(s: State)
    requires Sound(s) && Quiet(s) && CtAwake(s) && CtIdle(s)
    ensures DispatchOnce(s) == s.(woken := false)
  {
    assert CtTask(s).state == Ready;
  }

  /** Every dispatch of the run answers a wake-up. */
  ghost predicate NoSpurious(s: State, es: seq<Event>, msecs: nat -> nat)
    requires Sound(s) && Legal(s, es, msecs)
    decreases |es|
  {
    es == [] || ((es[0].Dispatch? ==> s.woken) && NoSpurious(Step(s, es[0], msecs), es[1..], msecs))
  }

  ghost predicate Prompted(s: State, msecs: nat -> nat) {
    exists now: nat, es: seq<Event> ::
      now > 0 && Legal(Boot(now), es, msecs) && NoSpurious(Boot(now), es, msecs) && Exec(Boot(now), es, msecs) == s
  }

  lemma {:induction false} NoSpuriousSnoc(s: State, es: seq<Event>, e: Event, msecs: nat -> nat)
    requires Sound(s) && Legal(s, es, msecs) && NoSpurious(s, es, msecs)
    requires Enabled(Exec(s, es, msecs), e) && (e.Dispatch? ==> Exec(s, es, msecs).woken)
    ensures Legal(s, es + [e], msecs) && NoSpurious(s, es + [e], msecs)
    decreases |es|
  {
    if es == [] {
      assert (es + [e])[1..] == [];
    } else {
      assert (es + [e])[1..] == es[1..] + [e];
      NoSpuriousSnoc(Step(s, es[0], msecs), es[1..], e, msecs);
    }
  }

  lemma PromptedStep(s: State, e: Event, msecs: nat -> nat)
    requires Prompted(s, msecs) && Sound(s) && Enabled(s, e) && (e.Dispatch? ==> s.woken)
    ensures Prompted(Step(s, e, msecs), msecs)
  {
    var now: nat, es :| now > 0 && Legal(Boot(now), es, msecs) && NoSpurious(Boot(now), es, msecs)
      && Exec(Boot(now), es, msecs) == s;
    ExecSnoc(Boot(now), es, e, msecs);
    NoSpuriousSnoc(Boot(now), es, e, msecs);
  }

  lemma PromptedBoot(now: nat, msecs: nat -> nat)
    requires now > 0
    ensures Prompted(Boot(now), msecs)
  {
    assert Legal(Boot(now), [], msecs) && NoSpurious(Boot(now), [], msecs);
  }

  /** Two tasks of one period, registered at jiffy 1. */
  const FIRST := NewTask(0, 1, 1000, 1)
  const SECOND := NewTask(1, 2, 1000, 1)

  function Pair(one: Task, two: Task, ct: Option<nat>, timers: map<nat, Timer>, woken: bool, now: nat): State {
    State([one, two], ct, timers, 2096, woken, now)
  }

  /** Where both find their first deadline. */
  function Ddl(msecs: nat -> nat): nat {
    1 + msecs(1000)
  }

  lemma PromptedTo(s: State, e: Event, s': State, msecs: nat -> nat)
    requires Prompted(s, msecs) && Sound(s) && Enabled(s, e) && (e.Dispatch? ==> s.woken) && Step(s, e, msecs) == s'
    ensures Prompted(s', msecs) && Sound(s')
  {
    PromptedStep(s, e, msecs);
  }

  lemma FirstListed(msecs: nat -> nat)
    ensures var s := State([FIRST], None, map[], 1048, false, 1); Prompted(s, msecs) && Sound(s)
  {
    PromptedBoot(1, msecs);
    PromptedTo(Boot(1), Register(0, 1, 1000, 1), State([FIRST], None, map[], 1048, false, 1), msecs);
  }

  lemma SecondRegisters()
    ensures var s := State([FIRST], None, map[], 1048, false, 1);
            Sound(s) && !HasAddr(s.tasks, 1)
            && RegisterTask(s, 1, 2, 1000, 1) == Pair(FIRST, SECOND, None, map[], false, 1)
  {
  }

  lemma BothListed(msecs: nat -> nat)
    ensures var s := Pair(FIRST, SECOND, None, map[], false, 1); Prompted(s, msecs) && Sound(s)
  {
    FirstListed(msecs);
    SecondRegisters();
    PromptedTo(State([FIRST], None, map[], 1048, false, 1), Register(1, 2, 1000, 1),
               Pair(FIRST, SECOND, None, map[], false, 1), msecs);
  }

  lemma FirstYields(msecs: nat -> nat)
    ensures var s := Pair(FIRST.(nextDdl := Ddl(msecs)), SECOND, None, map[0 := Timer(1, Ddl(msecs))], true, 1);
            Prompted(s, msecs) && Sound(s)
  {
    BothListed(msecs);
    YieldsFirst(Pair(FIRST, SECOND, None, map[], false, 1), 0, msecs);
    PromptedTo(Pair(FIRST, SECOND, None, map[], false, 1), Yield(1),
               Pair(FIRST.(nextDdl := Ddl(msecs)), SECOND, None, map[0 := Timer(1, Ddl(msecs))], true, 1), msecs);
  }

  function BothAsleep(ddl: nat, now: nat): State {
    Pair(FIRST.(nextDdl := ddl), SECOND.(nextDdl := ddl), None, map[0 := Timer(1, ddl), 1 := Timer(2, ddl)], true, now)
  }

  lemma SecondYields(msecs: nat -> nat)
    ensures Prompted(BothAsleep(Ddl(msecs), 1), msecs) && Sound(BothAsleep(Ddl(msecs), 1))
  {
    var s := Pair(FIRST.(nextDdl := Ddl(msecs)), SECOND, None, map[0 := Timer(1, Ddl(msecs))], true, 1);
    FirstYields(msecs);
    YieldsFirst(s, 1, msecs);
    PromptedTo(s, Yield(2), BothAsleep(Ddl(msecs), 1), msecs);
  }

  /** Both sleep and both timers are due. */
  lemma BothDue(msecs: nat -> nat)
    ensures var s := BothAsleep(Ddl(msecs), Ddl(msecs)); Prompted(s, msecs) && Sound(s)
  {
    SecondYields(msecs);
    PromptedTo(BothAsleep(Ddl(msecs), 1), Tick(msecs(1000)), BothAsleep(Ddl(msecs), Ddl(msecs)), msecs);
  }

  function OneReady(ddl: nat): State {
    Pair(FIRST.(nextDdl := ddl, state := Ready), SECOND.(nextDdl := ddl), None, map[1 := Timer(2, ddl)], true, ddl)
  }

  lemma FirstWakes(ddl: nat)
    requires Sound(BothAsleep(ddl, ddl))
    ensures FireTimer(BothAsleep(ddl, ddl), 0) == OneReady(ddl)
  {
    Wakes(BothAsleep(ddl, ddl), 0);
  }

  function OneRunning(ddl: nat): State {
    Pair(FIRST.(nextDdl := ddl, state := Running), SECOND.(nextDdl := ddl), Some(0), map[1 := Timer(2, ddl)],
         false, ddl)
  }

  lemma FirstRuns(ddl: nat)
    requires Sound(OneReady(ddl))
    ensures DispatchOnce(OneReady(ddl)) == OneRunning(ddl)
  {
    RunsAlone(OneReady(ddl), 0);
  }

  lemma OneRuns(msecs: nat -> nat)
    ensures Prompted(OneRunning(Ddl(msecs)), msecs) && Sound(OneRunning(Ddl(msecs)))
  {
    var ddl := Ddl(msecs);
    BothDue(msecs);
    FirstWakes(ddl);
    PromptedTo(BothAsleep(ddl, ddl), TimerFires(0), OneReady(ddl), msecs);
    FirstRuns(ddl);
    PromptedTo(OneReady(ddl), Dispatch, OneRunning(ddl), msecs);
  }

  function OneBehind(ddl: nat): State {
    Pair(FIRST.(nextDdl := ddl, state := Running), SECOND.(nextDdl := ddl, state := Ready), Some(0), map[], true, ddl)
  }

  lemma SecondWakes(ddl: nat)
    requires Sound(OneRunning(ddl))
    ensures FireTimer(OneRunning(ddl), 1) == OneBehind(ddl)
  {
    Wakes(OneRunning(ddl), 1);
  }

  lemma SecondLeaves(ddl: nat)
    requires Sound(OneBehind(ddl))
    ensures var s := DeregisterTask(OneBehind(ddl), 2);
            s.ct == Some(0) && s.woken && s.tasks == [FIRST.(nextDdl := ddl, state := Running)]
  {
    assert FirstIndex(OneBehind(ddl).tasks, 2) == 1;
  }

  /** The first runs; the second is woken behind it, and leaves before the dispatcher gets to it. */
  lemma WokenForNobody(msecs: nat -> nat) returns (s: State)
    ensures Prompted(s, msecs) && Sound(s) && s.ct == Some(0) && s.woken
    ensures s.tasks == [FIRST.(nextDdl := Ddl(msecs), state := Running)]
  {
    var ddl := Ddl(msecs);
    OneRuns(msecs);
    SecondWakes(ddl);
    PromptedTo(OneRunning(ddl), TimerFires(1), OneBehind(ddl), msecs);
    SecondLeaves(ddl);
    s := DeregisterTask(OneBehind(ddl), 2);
    PromptedTo(OneBehind(ddl), Deregister(2), s, msecs);
  }

  /** A run from loading the module to an idle current task, every dispatch in it answering a wake-up. */
  lemma IdleReachable(msecs: nat -> nat) returns (now: nat, es: seq<Event>)
    ensures now > 0 && Legal(Boot(now), es, msecs) && NoSpurious(Boot(now), es, msecs)
    ensures var s := Exec(Boot(now), es, msecs); CtIdle(s) && !s.woken
  {
    var s := WokenForNobody(msecs);
    DispatchIdlesExactly(s);
    PromptedStep(s, Dispatch, msecs);
    var boot: nat, run :| boot > 0 && Legal(Boot(boot), run, msecs) && NoSpurious(Boot(boot), run, msecs)
      && Exec(Boot(boot), run, msecs) == DispatchOnce(s);
    now, es := boot, run;
  }

  // ---------------------------------------------------------------- calm segments

  /** Neither a successful yield nor a deregistration of the current task. */
  ghost predicate CalmStep(s: State, e: Event, msecs: nat -> nat) {
    && !(e.Yield? && YieldSucceeds(s, e.pid, msecs))
    && !(e.Deregister? && FreesCurrent(s, e.pid))
  }

  ghost predicate Calm(s: State, es: seq<Event>, msecs: nat -> nat)
    requires Sound(s) && Legal(s, es, msecs)
    decreases |es|
  {
    es == [] || (CalmStep(s, es[0], msecs) && Calm(Step(s, es[0], msecs), es[1..], msecs))
  }

  ghost function Switches(s: State, es: seq<Event>, msecs: nat -> nat): nat
    requires Sound(s) && Legal(s, es, msecs)
    decreases |es|
  {
    if es == [] then 0
    else (if Step(s, es[0], msecs).ct != s.ct then 1 else 0) + Switches(Step(s, es[0], msecs), es[1..], msecs)
  }

  /** `ct` never becomes NULL, and each change of a set `ct` strictly lowers its period. */
  ghost predicate Improves(s: State, s': State)
    requires Sound(s) && Sound(s')
  {
    s.ct.Some? ==> s'.ct.Some? && (s'.ct != s.ct ==> CtTask(s').period < CtTask(s).period)
  }

  ghost predicate AlwaysImproves(s: State, es: seq<Event>, msecs: nat -> nat)
    requires Sound(s) && Legal(s, es, msecs)
    decreases |es|
  {
    es == [] || (Improves(s, Step(s, es[0], msecs)) && AlwaysImproves(Step(s, es[0], msecs), es[1..], msecs))
  }

  ghost predicate Rival(s: State, i: nat)
    requires Sound(s) && i < |s.tasks|
  {
    && (s.tasks[i].state != Sleeping || s.tasks[i].addr in s.timers)
    && (s.ct.Some? ==> s.tasks[i].period < CtTask(s).period)
  }

  /** The tasks that could still take over: in play, and of smaller period than the current task. */
  ghost function Rivals(s: State): set<nat>
    requires Sound(s)
  {
    set i | 0 <= i < |s.tasks| && Rival(s, i) :: s.tasks[i].addr
  }

  lemma RivalsListed(s: State)
    requires Sound(s)
    ensures |Rivals(s)| + (if s.ct.Some? then 1 else 0) <= |s.tasks|
  {
    var all := set i | 0 <= i < |s.tasks| :: s.tasks[i].addr;
    AddrCount(s.tasks);
    if s.ct.Some? {
      var c := AddrIndex(s.tasks, s.ct.value);
      assert s.ct.value !in Rivals(s);
      assert s.tasks[c].addr in all;
      SubsetSize(Rivals(s) + {s.ct.value}, all);
    } else {
      SubsetSize(Rivals(s), all);
    }
  }

  lemma {:induction false} AddrCount(ts: seq<Task>)
    requires AddrsUnique(ts)
    ensures |set i | 0 <= i < |ts| :: ts[i].addr| == |ts|
  {
    if ts != [] {
      var n := |ts| - 1;
      AddrCount(ts[..n]);
      var before := set i | 0 <= i < |ts[..n]| :: ts[..n][i].addr;
      assert before == set i | 0 <= i < n :: ts[i].addr;
      assert (set i | 0 <= i < |ts| :: ts[i].addr) == before + {ts[n].addr};
    }
  }

  lemma CtPeriodKept(s: State, s': State)
    requires Sound(s) && Sound(s') && SameTasks(s.tasks, s'.tasks) && s.ct.Some? && s'.ct == s.ct
    ensures CtTask(s').period == CtTask(s).period
  {
    var c := AddrIndex(s.tasks, s.ct.value);
    assert s'.tasks[c].addr == s.ct.value;
    CtAt(s', c);
  }

  /** A rival after a step that keeps the list and does not worsen `ct` was a rival before. */
  lemma RivalsShrink(s: State, s': State)
    requires Sound(s) && Sound(s') && SameTasks(s.tasks, s'.tasks)
    requires s.ct.Some? ==> s'.ct.Some? && CtTask(s').period <= CtTask(s).period
    requires forall i :: 0 <= i < |s.tasks| && (s'.tasks[i].state != Sleeping || s'.tasks[i].addr in s'.timers)
               ==> s.tasks[i].state != Sleeping || s.tasks[i].addr in s.timers
    ensures Rivals(s') <= Rivals(s)
  {
    forall a | a in Rivals(s') ensures a in Rivals(s) {
      var i :| 0 <= i < |s'.tasks| && Rival(s', i) && s'.tasks[i].addr == a;
      assert s.tasks[i].addr == a && Rival(s, i);
    }
  }

  /** A dispatch that switches spends a rival: the task it picks. */
  lemma DispatchRivals(s: State)
    requires Sound(s) && CtAwake(s)
    ensures var s' := DispatchOnce(s);
            && Improves(s, s')
            && Rivals(s') <= Rivals(s)
            && (s'.ct != s.ct ==> s'.ct.value in Rivals(s) && s'.ct.value !in Rivals(s'))
  {
    var s' := DispatchOnce(s);
    if s'.ct != s.ct {
      DispatchPicksRival(s);
    } else if s.ct.Some? {
      CtPeriodKept(s, s');
    }
    forall i | 0 <= i < |s.tasks|
      ensures s'.tasks[i].state == Sleeping <==> s.tasks[i].state == Sleeping
    {
      DispatchKeepsSleepers(s, i);
    }
    RivalsShrink(s, s');
  }

  lemma DispatchPicksRival(s: State)
    requires Sound(s) && DispatchOnce(s).ct != s.ct
    ensures var s' := DispatchOnce(s);
            && s'.ct.Some?
            && (s.ct.Some? ==> CtTask(s').period < CtTask(s).period)
            && s'.ct.value in Rivals(s) && s'.ct.value !in Rivals(s')
  {
    var s' := DispatchOnce(s);
    var h := Highest(s.tasks);
    assert s'.tasks[h].addr == s'.ct.value;
    CtAt(s', h);
    assert Rival(s, h);
    assert s.tasks[h].addr in Rivals(s);
    forall i | 0 <= i < |s'.tasks| && s'.tasks[i].addr == s'.ct.value ensures !Rival(s', i) {
      CtAt(s', i);
    }
  }

  lemma RegisterRivals(s: State, e: Event, msecs: nat -> nat)
    requires Sound(s) && Enabled(s, e) && e.Register?
    ensures var s' := Step(s, e, msecs); s'.ct == s.ct && Improves(s, s') && Rivals(s') <= Rivals(s)
  {
    var s' := Step(s, e, msecs);
    if s.ct.Some? {
      var c := AddrIndex(s.tasks, s.ct.value);
      assert s'.tasks[c] == s.tasks[c];
      CtAt(s', c);
    }
    forall a | a in Rivals(s') ensures a in Rivals(s) {
      var i :| 0 <= i < |s'.tasks| && Rival(s', i) && s'.tasks[i].addr == a;
      assert e.addr !in s.timers;
      assert i < |s.tasks|;
      assert s.tasks[i].addr == a && Rival(s, i);
    }
  }

  /** Removing a task that is not current leaves the current task where it was. */
  lemma RemoveKeepsCtTask(s: State, s': State, k: nat)
    requires Sound(s) && Sound(s') && k < |s.tasks| && s'.tasks == Remove(s.tasks, k)
    requires s.ct.Some? && s'.ct == s.ct && s.ct.value != s.tasks[k].addr
    ensures CtTask(s') == CtTask(s)
  {
    var c := AddrIndex(s.tasks, s.ct.value);
    var c' := if c < k then c else c - 1;
    assert s'.tasks[c'] == s.tasks[c];
    CtAt(s', c');
  }

  lemma DeregisterRivals(s: State, pid: Pid, msecs: nat -> nat)
    requires Sound(s) && CalmStep(s, Deregister(pid), msecs)
    ensures var s' := DeregisterTask(s, pid); s'.ct == s.ct && Improves(s, s') && Rivals(s') <= Rivals(s)
  {
    var s' := DeregisterTask(s, pid);
    var k := FirstIndex(s.tasks, pid);
    if k >= 0 {
      if s.ct.Some? {
        RemoveKeepsCtTask(s, s', k);
      }
      forall a | a in Rivals(s') ensures a in Rivals(s) {
        var i :| 0 <= i < |s'.tasks| && Rival(s', i) && s'.tasks[i].addr == a;
        var j := if i < k then i else i + 1;
        assert s.tasks[j] == s'.tasks[i];
        assert Rival(s, j);
      }
    }
  }

  lemma FireRivals(s: State, a: nat)
    requires Sound(s) && PidsUnique(s.tasks) && a in s.timers
    ensures var s' := FireTimer(s, a); s'.ct == s.ct && Improves(s, s') && Rivals(s') <= Rivals(s)
  {
    var s' := FireTimer(s, a);
    if s.ct.Some? {
      CtPeriodKept(s, s');
    }
    forall i | 0 <= i < |s.tasks| ensures s.tasks[i].pid == s.timers[a].data <==> s.tasks[i].addr == a {
      FireHitsOwner(s, a, i);
    }
    RivalsShrink(s, s');
  }

  lemma UnchangedRivals(s: State, s': State)
    requires Sound(s) && Sound(s') && SameTasks(s.tasks, s'.tasks) && s'.ct == s.ct && s'.timers == s.timers
    requires forall i :: 0 <= i < |s.tasks| ==> s'.tasks[i].state == s.tasks[i].state
    ensures Improves(s, s') && Rivals(s') <= Rivals(s)
  {
    if s.ct.Some? {
      CtPeriodKept(s, s');
    }
    RivalsShrink(s, s');
  }

  lemma CalmRivals(s: State, e: Event, msecs: nat -> nat)
    requires Sound(s) && PidsUnique(s.tasks) && Enabled(s, e) && CalmStep(s, e, msecs) && !e.Dispatch?
    ensures var s' := Step(s, e, msecs); s'.ct == s.ct && Improves(s, s') && Rivals(s') <= Rivals(s)
  {
    if e.Register? {
      RegisterRivals(s, e, msecs);
    } else if e.Deregister? {
      DeregisterRivals(s, e.pid, msecs);
    } else if e.TimerFires? {
      FireRivals(s, e.addr);
    } else {
      UnchangedRivals(s, Step(s, e, msecs));
    }
  }

  /** The potential argument: a switch costs at least one rival, nothing else adds one. */
  lemma CalmStepSpendsRivals(s: State, e: Event, msecs: nat -> nat)
    requires Sound(s) && PidsUnique(s.tasks) && CtAwake(s) && Enabled(s, e) && CalmStep(s, e, msecs)
    ensures var s' := Step(s, e, msecs);
            Improves(s, s') && (if s'.ct != s.ct then 1 else 0) + |Rivals(s')| <= |Rivals(s)|
  {
    var s' := Step(s, e, msecs);
    if !e.Dispatch? {
      CalmRivals(s, e, msecs);
      SubsetSize(Rivals(s'), Rivals(s));
    } else {
      DispatchRivals(s);
      if s'.ct != s.ct {
        SubsetSize(Rivals(s') + {s'.ct.value}, Rivals(s));
      } else {
        SubsetSize(Rivals(s'), Rivals(s));
      }
    }
  }

  lemma {:induction false} CalmRun(s: State, es: seq<Event>, msecs: nat -> nat)
    requires Inv(s) && Legal(s, es, msecs) && Calm(s, es, msecs)
    ensures AlwaysImproves(s, es, msecs)
    ensures Switches(s, es, msecs) + |Rivals(Exec(s, es, msecs))| <= |Rivals(s)|
    ensures s.ct.Some? ==> Exec(s, es, msecs).ct.Some?
    decreases |es|
  {
    if es != [] {
      StepKeepsInv(s, es[0], msecs);
      CalmStepSpendsRivals(s, es[0], msecs);
      CalmRun(Step(s, es[0], msecs), es[1..], msecs);
    }
  }

  /**
  While no task yields successfully and the current task is not deregistered: `ct` stays set once
  set, every switch strictly lowers its period, and the number of changes is at most the number of
  tasks listed at the start, not counting the current one.
  */
  lemma CalmSegment(s: State, es: seq<Event>, msecs: nat -> nat)
    requires Reachable(s, msecs) && Legal(s, es, msecs) && Calm(s, es, msecs)
    ensures AlwaysImproves(s, es, msecs)
    ensures s.ct.Some? ==> Exec(s, es, msecs).ct.Some?
    ensures Switches(s, es, msecs) + (if s.ct.Some? then 1 else 0) <= |s.tasks|
  {
    ReachableInv(s, msecs);
    CalmRun(s, es, msecs);
    RivalsListed(s);
  }
}
