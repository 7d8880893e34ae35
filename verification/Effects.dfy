/**
What each entry point of MP2 does, field by field: the guard, every field of the state it leaves and
everything it leaves alone, in terms of the list, the clock and the arguments. No other module's result
says how a call comes out; these do, and the results about runs rest on them.
*/
module Effects {
  import opened Words
  import opened Scheduler
  import opened Admission
  import opened Overlap

  // ---------------------------------------------------------------- shares

  /** `u` is the whole part of proc_time * 2^20 / period, the top 20 bits of proc_time lost. */
  predicate IsShare(u: int, procTime: Word64, period: Period) {
    u * period <= (procTime % 0x1000_0000_0000) * 0x10_0000 < (u + 1) * period
  }

  lemma ShareIsUnique(u: int, v: int, procTime: Word64, period: Period)
    requires IsShare(u, procTime, period) && IsShare(v, procTime, period)
    ensures u == v
  {
    if u < v {
      Monotone(u + 1, v, period);
    } else if v < u {
      Monotone(v + 1, u, period);
    }
  }

  lemma Monotone(a: int, b: int, c: int)
    requires a <= b && c > 0
    ensures a * c <= b * c
  {
  }

  /** The fixed-point utilisation for every proc_time, the shifted-out ones included. */
  lemma ShareOf(procTime: Word64, period: Period)
    ensures IsShare(TruncUtil(procTime, period), procTime, period)
  {
    var low, high := procTime % 0x1000_0000_0000, procTime / 0x1000_0000_0000;
    assert procTime * SHIFT == high * TWO_64 + low * SHIFT;
    assert (procTime * SHIFT) % TWO_64 == low * SHIFT;
    QuotientBounds(low * SHIFT, period);
  }

  // ---------------------------------------------------------------- registration

  /** The list with one more task behind it, asleep and without a deadline. */
  ghost predicate Appends(ts: seq<Task>, ts': seq<Task>, addr: nat, pid: Pid, period: Period, procTime: Word64) {
    && |ts'| == |ts| + 1 && ts <= ts'
    && ts'[|ts|].addr == addr && ts'[|ts|].pid == pid
    && ts'[|ts|].period == period && ts'[|ts|].procTime == procTime
    && ts'[|ts|].nextDdl == 0 && ts'[|ts|].state == Sleeping
  }

  /** A registration goes through if and only if its pid is not listed and its share leaves the sum below the limit. */
  lemma RegisterExactly(s: State, addr: nat, pid: Pid, period: Period, procTime: Word64, share: nat)
    requires Sound(s) && !HasAddr(s.tasks, addr) && IsShare(share, procTime, period)
    ensures var s' := RegisterTask(s, addr, pid, period, procTime);
            if HasPid(s.tasks, pid) || (s.util + share) % TWO_64 >= 726663 then s' == s
            else
              && Appends(s.tasks, s'.tasks, addr, pid, period, procTime)
              && s'.util == (s.util + share) % TWO_64
              && s'.ct == s.ct && s'.timers == s.timers && s'.woken == s.woken && s'.now == s.now
  {
    ShareOf(procTime, period);
    ShareIsUnique(share, TruncUtil(procTime, period), procTime, period);
  }

  // ---------------------------------------------------------------- its sections

  /** The check lets a pid on its way if and only if it is not listed, with the arguments it was given. */
  lemma CheckExactly(s: SplitState, pid: Pid, period: Period, procTime: Word64, msecs: nat -> nat)
    requires Sound(s.base)
    ensures var s' := FineStep(s, Split(Check(pid, period, procTime)), msecs);
            && s'.base == s.base
            && s'.flights == if HasPid(s.base.tasks, pid) then s.flights
                             else s.flights + [Checked(pid, period, procTime)]
  {
  }

  /** A whole call is the call on its own; it leaves the registrations under way where they are. */
  lemma WholeExactly(s: SplitState, w: Event, msecs: nat -> nat)
    requires Sound(s.base) && Enabled(s.base, w)
    ensures FineStep(s, Split(Whole(w)), msecs) == SplitState(Step(s.base, w, msecs), s.flights)
  {
  }

  /** The same flight, one section further. */
  predicate Advances(f: Flight, f': Flight) {
    f'.pid == f.pid && f'.period == f.period && f'.procTime == f.procTime
  }

  /** The others stay where they are. */
  ghost predicate OnlyMoves(fs: seq<Flight>, fs': seq<Flight>, k: nat) {
    |fs'| == |fs| && k < |fs| && Advances(fs[k], fs'[k]) && forall i :: 0 <= i < |fs| && i != k ==> fs'[i] == fs[i]
  }

  ghost predicate OnlyDrops(fs: seq<Flight>, fs': seq<Flight>, k: nat) {
    |fs'| == |fs| - 1 && forall i :: 0 <= i < |fs'| ==> fs'[i] == fs[if i < k then i else i + 1]
  }

  /** The test passes if and only if the 64-bit sum with the share is below the limit; it adds nothing. */
  lemma TestExactly(s: SplitState, k: nat, share: nat, msecs: nat -> nat)
    requires Sound(s.base) && FineEnabled(s, Test(k))
    requires IsShare(share, s.flights[k].procTime, s.flights[k].period)
    ensures var s' := FineStep(s, Test(k), msecs);
            && s'.base == s.base
            && if (s.base.util + share) % TWO_64 < 726663 then OnlyMoves(s.flights, s'.flights, k) && s'.flights[k].Tested?
               else OnlyDrops(s.flights, s'.flights, k)
  {
    var f := s.flights[k];
    ShareOf(f.procTime, f.period);
    ShareIsUnique(share, TruncUtil(f.procTime, f.period), f.procTime, f.period);
  }

  /** The update adds the share to whatever the counter has become, and nothing else. */
  lemma UpdateExactly(s: SplitState, k: nat, share: nat, msecs: nat -> nat)
    requires Sound(s.base) && FineEnabled(s, Update(k))
    requires IsShare(share, s.flights[k].procTime, s.flights[k].period)
    ensures var s' := FineStep(s, Update(k), msecs);
            && s'.base == s.base.(util := s'.base.util) && s'.base.util == (s.base.util + share) % TWO_64
            && OnlyMoves(s.flights, s'.flights, k) && s'.flights[k].Admitted?
  {
    var f := s.flights[k];
    ShareOf(f.procTime, f.period);
    ShareIsUnique(share, TruncUtil(f.procTime, f.period), f.procTime, f.period);
  }

  /** The append lists the flight's task and touches nothing else. */
  lemma AppendExactly(s: SplitState, k: nat, addr: nat, msecs: nat -> nat)
    requires Sound(s.base) && SplitEnabled(s, Append(k, addr))
    ensures var s', f := SplitStep(s, Append(k, addr), msecs), s.flights[k];
            && Appends(s.base.tasks, s'.base.tasks, addr, f.pid, f.period, f.procTime)
            && s'.base == s.base.(tasks := s'.base.tasks)
            && OnlyDrops(s.flights, s'.flights, k)
  {
  }

  // ---------------------------------------------------------------- yield

  /** `k` is the last place in the list with that pid. */
  ghost predicate IsLast(ts: seq<Task>, pid: Pid, k: int) {
    0 <= k < |ts| && ts[k].pid == pid && forall j :: k < j < |ts| ==> ts[j].pid != pid
  }

  /** A task that yields is in time if it has not yielded before, or if its next deadline has not passed. */
  predicate InTime(t: Task, now: nat, msecs: nat -> nat) {
    t.nextDdl == 0 || now <= t.nextDdl + msecs(t.period)
  }

  /** The deadline moves on by one period, the first one counted from now. */
  function Moved(t: Task, now: nat, msecs: nat -> nat): nat {
    if t.nextDdl == 0 then now + msecs(t.period) else t.nextDdl + msecs(t.period)
  }

  /**
  In time, the task sleeps until its new deadline, `ct` is cleared and the dispatcher woken; late, only
  the deadline moves. Any other field, and every other task, stays as it was.
  */
  lemma YieldExactly(s: State, pid: Pid, msecs: nat -> nat, k: int)
    requires Sound(s) && IsLast(s.tasks, pid, k)
    ensures var s', t := YieldTask(s, pid, msecs), s.tasks[k];
            var ddl := Moved(t, s.now, msecs);
            if InTime(t, s.now, msecs) then
              s' == State(s.tasks[k := Task(t.addr, t.pid, t.period, t.procTime, ddl, Sleeping)],
                          None, s.timers[t.addr := Timer(pid, ddl)], s.util, true, s.now)
            else
              s' == State(s.tasks[k := Task(t.addr, t.pid, t.period, t.procTime, ddl, t.state)],
                          s.ct, s.timers, s.util, s.woken, s.now)
  {
    assert LastIndex(s.tasks, pid) == k;
  }

  lemma UnknownYield(s: State, pid: Pid, msecs: nat -> nat)
    requires Sound(s) && !HasPid(s.tasks, pid)
    ensures YieldTask(s, pid, msecs) == s
  {
    assert LastIndex(s.tasks, pid) < 0;
  }

  // ---------------------------------------------------------------- deregistration

  /** `k` is the first place in the list with that pid. */
  ghost predicate IsFirst(ts: seq<Task>, pid: Pid, k: int) {
    0 <= k < |ts| && ts[k].pid == pid && forall j :: 0 <= j < k ==> ts[j].pid != pid
  }

  lemma DeregisterCt(s: State, pid: Pid, k: int)
    requires Sound(s) && IsFirst(s.tasks, pid, k)
    ensures var s' := DeregisterTask(s, pid);
            if s.ct == Some(s.tasks[k].addr) then s'.ct == None && s'.woken else s'.ct == s.ct && s'.woken == s.woken
  {
    assert FirstIndex(s.tasks, pid) == k;
  }

  /**
  The first task of that pid leaves the list with its timer and its share. Only if it is the one `ct`
  points to is `ct` cleared and the dispatcher woken.
  */
  lemma DeregisterExactly(s: State, pid: Pid, k: int, share: nat)
    requires Sound(s) && IsFirst(s.tasks, pid, k) && IsShare(share, s.tasks[k].procTime, s.tasks[k].period)
    ensures var s', t := DeregisterTask(s, pid), s.tasks[k];
            && s'.tasks == s.tasks[..k] + s.tasks[k + 1..]
            && (forall a :: a in s'.timers <==> a in s.timers && a != t.addr)
            && (forall a :: a in s'.timers ==> s'.timers[a] == s.timers[a])
            && s'.util == (s.util - share) % TWO_64 && s'.now == s.now
            && (if s.ct == Some(t.addr) then s'.ct == None && s'.woken else s'.ct == s.ct && s'.woken == s.woken)
  {
    var t := s.tasks[k];
    assert FirstIndex(s.tasks, pid) == k;
    DeregisterCt(s, pid, k);
    ShareOf(t.procTime, t.period);
    ShareIsUnique(share, TruncUtil(t.procTime, t.period), t.procTime, t.period);
  }

  lemma UnknownDeregister(s: State, pid: Pid)
    requires Sound(s) && !HasPid(s.tasks, pid)
    ensures DeregisterTask(s, pid) == s
  {
    assert FirstIndex(s.tasks, pid) < 0;
  }

  // ---------------------------------------------------------------- timer callback

  /** Every task with the pid the timer was set up with becomes READY; the timer is spent, the dispatcher woken. */
  lemma FireExactly(s: State, a: nat)
    requires Sound(s) && a in s.timers
    ensures var s' := FireTimer(s, a);
            && |s'.tasks| == |s.tasks|
            && (forall i :: 0 <= i < |s.tasks| ==>
                  s'.tasks[i] == if s.tasks[i].pid == s.timers[a].data then s.tasks[i].(state := Ready) else s.tasks[i])
            && (forall b :: b in s'.timers <==> b in s.timers && b != a)
            && (forall b :: b in s'.timers ==> s'.timers[b] == s.timers[b])
            && s'.woken && s'.ct == s.ct && s'.util == s.util && s'.now == s.now
  {
  }

  // ---------------------------------------------------------------- dispatch

  /** Nothing READY: the current task, if any, is demoted and stays current. */
  lemma DispatchNobody(s: State)
    requires Sound(s) && forall t <- s.tasks :: t.state != Ready
    ensures s.ct.None? ==> DispatchOnce(s) == s.(woken := false)
    ensures forall c :: 0 <= c < |s.tasks| && s.ct == Some(s.tasks[c].addr) ==>
              DispatchOnce(s) == s.(woken := false, tasks := s.tasks[c := s.tasks[c].(state := Ready)])
  {
    assert Highest(s.tasks) < 0;
    forall c | 0 <= c < |s.tasks| && s.ct == Some(s.tasks[c].addr)
      ensures DispatchOnce(s).tasks == s.tasks[c := s.tasks[c].(state := Ready)]
    {
      CtAt(s, c);
      SetOne(s.tasks, c, Ready);
    }
  }

  /** Without a current task the earliest-registered READY task of minimum period is dispatched. */
  lemma DispatchTakesOver(s: State, h: int)
    requires Sound(s) && IsHighest(s.tasks, h) && s.ct.None?
    ensures DispatchOnce(s)
            == s.(woken := false, ct := Some(s.tasks[h].addr), tasks := s.tasks[h := s.tasks[h].(state := Running)])
  {
    HighestIsUnique(s.tasks, h);
    SetOne(s.tasks, h, Running);
  }

  /** From a current task of longer period it takes over, and that task becomes READY. */
  lemma DispatchPreempts(s: State, h: int, c: nat)
    requires Sound(s) && IsHighest(s.tasks, h)
    requires c < |s.tasks| && s.ct == Some(s.tasks[c].addr) && s.tasks[c].period > s.tasks[h].period
    ensures DispatchOnce(s)
            == s.(woken := false, ct := Some(s.tasks[h].addr),
                  tasks := s.tasks[c := s.tasks[c].(state := Ready)][h := s.tasks[h].(state := Running)])
  {
    HighestIsUnique(s.tasks, h);
    CtAt(s, c);
    SetOne(s.tasks, c, Ready);
    SetOne(s.tasks[c := s.tasks[c].(state := Ready)], h, Running);
  }

  /** A current task of no longer period keeps everything as it is. */
  lemma DispatchKeeps(s: State, h: int, c: nat)
    requires Sound(s) && IsHighest(s.tasks, h)
    requires c < |s.tasks| && s.ct == Some(s.tasks[c].addr) && s.tasks[c].period <= s.tasks[h].period
    ensures DispatchOnce(s) == s.(woken := false)
  {
    HighestIsUnique(s.tasks, h);
    CtAt(s, c);
  }

  lemma CtAt(s: State, c: nat)
    requires Sound(s) && c < |s.tasks| && s.ct == Some(s.tasks[c].addr)
    ensures CtTask(s) == s.tasks[c]
  {
  }

  lemma SetOne(ts: seq<Task>, k: nat, st: TaskState)
    requires AddrsUnique(ts) && k < |ts|
    ensures SetState(ts, ts[k].addr, st) == ts[k := ts[k].(state := st)]
  {
    var a, b := SetState(ts, ts[k].addr, st), ts[k := ts[k].(state := st)];
    forall i | 0 <= i < |ts| ensures a[i] == b[i] {
      assert i != k ==> ts[i].addr != ts[k].addr;
    }
  }

  // ---------------------------------------------------------------- wake-ups

  ghost predicate YieldSucceeds(s: State, pid: Pid, msecs: nat -> nat) {
    var k := LastIndex(s.tasks, pid);
    k >= 0 && InTime(s.tasks[k], s.now, msecs)
  }

  ghost predicate FreesCurrent(s: State, pid: Pid) {
    var k := FirstIndex(s.tasks, pid);
    k >= 0 && s.ct == Some(s.tasks[k].addr)
  }

  /** The calls that wake the dispatcher: a timer callback, a yield in time, the deregistration of the current task. */
  ghost predicate WakesUp(s: State, e: Event, msecs: nat -> nat) {
    match e
    case TimerFires(_) => true
    case Yield(pid) => YieldSucceeds(s, pid, msecs)
    case Deregister(pid) => FreesCurrent(s, pid)
    case _ => false
  }

  lemma YieldWakes(s: State, pid: Pid, msecs: nat -> nat)
    requires Sound(s)
    ensures YieldTask(s, pid, msecs).woken <==> YieldSucceeds(s, pid, msecs) || s.woken
  {
    var k := LastIndex(s.tasks, pid);
    if k >= 0 {
      YieldExactly(s, pid, msecs, k);
    }
  }

  lemma DeregisterWakes(s: State, pid: Pid)
    requires Sound(s)
    ensures DeregisterTask(s, pid).woken <==> FreesCurrent(s, pid) || s.woken
  {
  }

  /** After a step a wake-up is pending if and only if the step wakes, or one was and the step is no dispatch. */
  lemma WokenExactly(s: State, e: Event, msecs: nat -> nat)
    requires Sound(s) && Enabled(s, e)
    ensures Step(s, e, msecs).woken <==> WakesUp(s, e, msecs) || (s.woken && !e.Dispatch?)
  {
    match e
    case Yield(pid) => YieldWakes(s, pid, msecs);
    case Deregister(pid) => DeregisterWakes(s, pid);
    case _ =>
  }

  /** Whether such a call has occurred since the last dispatch, `called` saying so for the time before. */
  ghost predicate CalledSince(called: bool, s: State, es: seq<Event>, msecs: nat -> nat)
    requires Sound(s) && Legal(s, es, msecs)
    decreases |es|
  {
    if es == [] then called
    else
      CalledSince(if es[0].Dispatch? then false else called || WakesUp(s, es[0], msecs),
                  Step(s, es[0], msecs), es[1..], msecs)
  }

  lemma {:induction false} RunWoken(s: State, es: seq<Event>, msecs: nat -> nat)
    requires Sound(s) && Legal(s, es, msecs)
    ensures Exec(s, es, msecs).woken <==> CalledSince(s.woken, s, es, msecs)
    decreases |es|
  {
    if es != [] {
      WokenExactly(s, es[0], msecs);
      RunWoken(Step(s, es[0], msecs), es[1..], msecs);
    }
  }

  /** From loading the module: a wake-up is pending if and only if one has been called for since the last dispatch. */
  lemma WokenFromBoot(now: nat, es: seq<Event>, msecs: nat -> nat)
    requires Legal(Boot(now), es, msecs)
    ensures Exec(Boot(now), es, msecs).woken <==> CalledSince(false, Boot(now), es, msecs)
  {
    RunWoken(Boot(now), es, msecs);
  }
}
