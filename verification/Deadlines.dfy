/**
A run of the scheduler against a book kept by somebody who sees only the calls and the clock: which
registrations went through with which arguments, how often each task has yielded, when first, and which
yields were in time. The book knows nothing of task structures, timers or `ct`; the results below say
that the list, the deadlines, the timers and the outcome of every yield are what the book says.
*/
module Deadlines {
  import opened Words
  import opened Scheduler
  import opened Admission
  import opened Runs
  import opened Effects

  /** A registration, with the yields since: how many, the jiffy of the first, the number of the last in time. */
  datatype Line = Line(addr: nat, pid: Pid, period: Period, procTime: Word64, first: nat, count: nat, armed: nat)

  type Book = seq<Line>

  /** The jiffy at which the n-th period after the first yield ends. */
  function PeriodEnd(l: Line, n: nat, msecs: nat -> nat): nat {
    l.first + n * msecs(l.period)
  }

  /** A yield now would be in time: it is the first, or the period it ends has not passed. */
  predicate Punctual(l: Line, now: nat, msecs: nat -> nat) {
    l.count == 0 || now <= PeriodEnd(l, l.count + 1, msecs)
  }

  function Noted(l: Line, now: nat, msecs: nat -> nat): Line {
    l.(first := if l.count == 0 then now else l.first,
       count := l.count + 1,
       armed := if Punctual(l, now, msecs) then l.count + 1 else l.armed)
  }

  function NoteYield(b: Book, pid: Pid, now: nat, msecs: nat -> nat): (r: Book)
    ensures |r| == |b|
    ensures forall i :: 0 <= i < |b| ==> r[i] == if b[i].pid == pid then Noted(b[i], now, msecs) else b[i]
  {
    seq(|b|, i requires 0 <= i < |b| => if b[i].pid == pid then Noted(b[i], now, msecs) else b[i])
  }

  function Struck(b: Book, pid: Pid): Book {
    if b == [] then []
    else Struck(b[..|b| - 1], pid) + if b[|b| - 1].pid == pid then [] else [b[|b| - 1]]
  }

  /** One call; `admitted` says whether a registration goes through. */
  function BookStep(b: Book, now: nat, e: Event, admitted: bool, msecs: nat -> nat): Book {
    match e
    case Register(addr, pid, period, procTime) =>
      if admitted then b + [Line(addr, pid, period, procTime, 0, 0, 0)] else b
    case Yield(pid) => NoteYield(b, pid, now, msecs)
    case Deregister(pid) => Struck(b, pid)
    case _ => b
  }

  ghost predicate InBook(b: Book, pid: Pid) {
    exists i :: 0 <= i < |b| && b[i].pid == pid
  }

  /** The shares of the book. */
  ghost function BookUtil(b: Book): nat {
    if b == [] then 0 else BookUtil(b[..|b| - 1]) + TruncUtil(b[|b| - 1].procTime, b[|b| - 1].period)
  }

  /** By the book a registration goes through if its pid is new and the shares stay below the limit. */
  ghost predicate BookAdmits(b: Book, e: Event) {
    e.Register? && !InBook(b, e.pid) && BookUtil(b) + TruncUtil(e.procTime, e.period) < 726663
  }

  function Clock(now: nat, e: Event): nat {
    if e.Tick? then now + e.jiffies else now
  }

  /** The book after a run that begins at jiffy `now`: a function of the calls and the clock alone. */
  ghost function BookAfter(b: Book, now: nat, es: seq<Event>, msecs: nat -> nat): Book
    decreases |es|
  {
    if es == [] then b
    else BookAfter(BookStep(b, now, es[0], BookAdmits(b, es[0]), msecs), Clock(now, es[0]), es[1..], msecs)
  }

  function ClockAfter(now: nat, es: seq<Event>): nat
    decreases |es|
  {
    if es == [] then now else ClockAfter(Clock(now, es[0]), es[1..])
  }

  // ---------------------------------------------------------------- the list against the book

  /** A listed task is the registration in the line, with the deadline and the timer its yields earned. */
  ghost predicate OnSchedule(t: Task, l: Line, timers: map<nat, Timer>, msecs: nat -> nat) {
    && t.addr == l.addr && t.pid == l.pid && t.period == l.period && t.procTime == l.procTime
    && (l.count == 0 ==> t.nextDdl == 0 && t.state == Sleeping && t.addr !in timers)
    && (l.count > 0 ==>
          && 1 <= l.armed <= l.count && l.first > 0
          && t.nextDdl == PeriodEnd(l, l.count, msecs)
          && (t.addr in timers <==> t.state == Sleeping)
          && (t.addr in timers ==> timers[t.addr] == Timer(t.pid, PeriodEnd(l, l.armed, msecs))))
  }

  ghost predicate ByTheBook(s: State, b: Book, msecs: nat -> nat) {
    |s.tasks| == |b| && forall i :: 0 <= i < |b| ==> OnSchedule(s.tasks[i], b[i], s.timers, msecs)
  }

  lemma NextPeriodEnd(l: Line, n: nat, msecs: nat -> nat)
    ensures PeriodEnd(l, n + 1, msecs) == PeriodEnd(l, n, msecs) + msecs(l.period)
  {
    assert (n + 1) * msecs(l.period) == n * msecs(l.period) + msecs(l.period);
  }

  /** The state and the book agree on who is in time. */
  lemma PunctualIsInTime(t: Task, l: Line, timers: map<nat, Timer>, now: nat, msecs: nat -> nat)
    requires OnSchedule(t, l, timers, msecs)
    ensures Punctual(l, now, msecs) <==> InTime(t, now, msecs)
    ensures Moved(t, now, msecs) == PeriodEnd(Noted(l, now, msecs), l.count + 1, msecs)
  {
    NextPeriodEnd(l, l.count, msecs);
    if l.count == 0 {
      NextPeriodEnd(l.(first := now), 0, msecs);
    }
  }

  /** The yielding task, at index `k`, moves on by one period. */
  lemma YielderOnSchedule(s: State, b: Book, k: nat, msecs: nat -> nat)
    requires Sound(s) && s.now > 0 && ByTheBook(s, b, msecs) && k < |b| && IsLast(s.tasks, s.tasks[k].pid, k)
    ensures var s' := YieldTask(s, s.tasks[k].pid, msecs);
            OnSchedule(s'.tasks[k], Noted(b[k], s.now, msecs), s'.timers, msecs)
  {
    YieldExactly(s, s.tasks[k].pid, msecs, k);
    PunctualIsInTime(s.tasks[k], b[k], s.timers, s.now, msecs);
  }

  lemma YieldOnSchedule(s: State, b: Book, pid: Pid, msecs: nat -> nat)
    requires Orderly(s) && ByTheBook(s, b, msecs)
    ensures ByTheBook(YieldTask(s, pid, msecs), NoteYield(b, pid, s.now, msecs), msecs)
  {
    var k := LastIndex(s.tasks, pid);
    if k >= 0 {
      var s', b' := YieldTask(s, pid, msecs), NoteYield(b, pid, s.now, msecs);
      YielderOnSchedule(s, b, k, msecs);
      forall i | 0 <= i < |b| && i != k ensures OnSchedule(s'.tasks[i], b'[i], s'.timers, msecs) {
        YieldSparesOthers(s, b, pid, k, i, msecs);
      }
    } else {
      forall i | 0 <= i < |b| ensures NoteYield(b, pid, s.now, msecs)[i] == b[i] {
        assert s.tasks[i].pid == b[i].pid;
      }
    }
  }

  lemma YieldSparesOthers(s: State, b: Book, pid: Pid, k: nat, i: nat, msecs: nat -> nat)
    requires Orderly(s) && ByTheBook(s, b, msecs) && IsLast(s.tasks, pid, k) && i < |b| && i != k
    ensures var s' := YieldTask(s, pid, msecs);
            OnSchedule(s'.tasks[i], NoteYield(b, pid, s.now, msecs)[i], s'.timers, msecs)
  {
    YieldExactly(s, pid, msecs, k);
    assert OnSchedule(s.tasks[i], b[i], s.timers, msecs);
    assert s.tasks[i].pid != pid && s.tasks[i].addr != s.tasks[k].addr;
  }

  /** Striking the only line of a pid leaves the rest of the book. */
  lemma {:induction false} StruckOne(b: Book, k: nat)
    requires k < |b| && forall i :: 0 <= i < |b| && i != k ==> b[i].pid != b[k].pid
    ensures Struck(b, b[k].pid) == b[..k] + b[k + 1..]
  {
    var n := |b| - 1;
    if k == n {
      StruckNone(b[..n], b[k].pid);
    } else {
      StruckOne(b[..n], k);
      assert b[k + 1..] == b[..n][k + 1..] + [b[n]];
    }
  }

  lemma {:induction false} StruckNone(b: Book, pid: Pid)
    requires forall i :: 0 <= i < |b| ==> b[i].pid != pid
    ensures Struck(b, pid) == b
  {
    if b != [] {
      StruckNone(b[..|b| - 1], pid);
    }
  }

  lemma DeregisterOnSchedule(s: State, b: Book, pid: Pid, msecs: nat -> nat)
    requires Orderly(s) && ByTheBook(s, b, msecs)
    ensures ByTheBook(DeregisterTask(s, pid), Struck(b, pid), msecs)
  {
    var k := FirstIndex(s.tasks, pid);
    forall i | 0 <= i < |b| ensures b[i].pid == s.tasks[i].pid {
    }
    if k < 0 {
      StruckNone(b, pid);
    } else {
      StruckOne(b, k);
      RemoveOnSchedule(s, b, k, DeregisterTask(s, pid), msecs);
    }
  }

  lemma RemoveOnSchedule(s: State, b: Book, k: nat, s': State, msecs: nat -> nat)
    requires AddrsUnique(s.tasks) && ByTheBook(s, b, msecs) && k < |b|
    requires s'.tasks == Remove(s.tasks, k) && s'.timers == s.timers - {s.tasks[k].addr}
    ensures ByTheBook(s', b[..k] + b[k + 1..], msecs)
  {
    var b' := b[..k] + b[k + 1..];
    forall i | 0 <= i < |b'| ensures OnSchedule(s'.tasks[i], b'[i], s'.timers, msecs) {
      var j := if i < k then i else i + 1;
      assert OnSchedule(s.tasks[j], b[j], s.timers, msecs) && b'[i] == b[j];
      assert s.tasks[j].addr != s.tasks[k].addr;
    }
  }

  /** A new task has no deadline and no timer. */
  lemma AppendOnSchedule(s: State, b: Book, s': State, l: Line, msecs: nat -> nat)
    requires Sound(s) && ByTheBook(s, b, msecs) && !HasAddr(s.tasks, l.addr)
    requires Appends(s.tasks, s'.tasks, l.addr, l.pid, l.period, l.procTime) && s'.timers == s.timers && l.count == 0
    ensures ByTheBook(s', b + [l], msecs)
  {
    assert l.addr !in s.timers;
    forall i | 0 <= i < |b| ensures OnSchedule(s'.tasks[i], (b + [l])[i], s'.timers, msecs) {
      assert OnSchedule(s.tasks[i], b[i], s.timers, msecs);
    }
  }

  /** A registration that goes through. */
  ghost predicate GoesThrough(s: State, e: Event) {
    e.Register? && !HasPid(s.tasks, e.pid) && Admissible(s.util, e.period, e.procTime)
  }

  lemma RegisterOnSchedule(s: State, b: Book, e: Event, msecs: nat -> nat)
    requires Sound(s) && ByTheBook(s, b, msecs) && e.Register? && Enabled(s, e)
    ensures ByTheBook(Step(s, e, msecs), BookStep(b, s.now, e, GoesThrough(s, e), msecs), msecs)
  {
    ShareOf(e.procTime, e.period);
    RegisterExactly(s, e.addr, e.pid, e.period, e.procTime, TruncUtil(e.procTime, e.period));
    if GoesThrough(s, e) {
      AppendOnSchedule(s, b, Step(s, e, msecs), Line(e.addr, e.pid, e.period, e.procTime, 0, 0, 0), msecs);
    }
  }

  /** The callback wakes the task whose timer it was, and no other. */
  lemma FireOnSchedule(s: State, b: Book, a: nat, msecs: nat -> nat)
    requires Orderly(s) && ByTheBook(s, b, msecs) && a in s.timers
    ensures ByTheBook(FireTimer(s, a), b, msecs)
  {
    forall i | 0 <= i < |b| ensures OnSchedule(FireTimer(s, a).tasks[i], b[i], FireTimer(s, a).timers, msecs) {
      assert OnSchedule(s.tasks[i], b[i], s.timers, msecs);
      FireHitsOwner(s, a, i);
    }
  }

  lemma DispatchOnSchedule(s: State, b: Book, msecs: nat -> nat)
    requires Orderly(s) && ByTheBook(s, b, msecs)
    ensures ByTheBook(DispatchOnce(s), b, msecs)
  {
    forall i | 0 <= i < |b| ensures OnSchedule(DispatchOnce(s).tasks[i], b[i], s.timers, msecs) {
      assert OnSchedule(s.tasks[i], b[i], s.timers, msecs);
      DispatchKeepsSleepers(s, i);
    }
  }

  /** Only the passing of time moves the clock. */
  lemma StepClock(s: State, e: Event, msecs: nat -> nat)
    requires Sound(s) && Enabled(s, e)
    ensures Step(s, e, msecs).now == Clock(s.now, e)
  {
  }

  lemma StepOnSchedule(s: State, b: Book, e: Event, msecs: nat -> nat)
    requires Orderly(s) && ByTheBook(s, b, msecs) && Enabled(s, e)
    ensures ByTheBook(Step(s, e, msecs), BookStep(b, s.now, e, GoesThrough(s, e), msecs), msecs)
  {
    match e
    case Yield(pid) => YieldOnSchedule(s, b, pid, msecs);
    case Deregister(pid) => DeregisterOnSchedule(s, b, pid, msecs);
    case Register(_, _, _, _) => RegisterOnSchedule(s, b, e, msecs);
    case TimerFires(a) => FireOnSchedule(s, b, a, msecs);
    case Dispatch => DispatchOnSchedule(s, b, msecs);
    case Tick(_) =>
  }

  // ---------------------------------------------------------------- whole runs

  lemma {:induction false} SharesByTheBook(ts: seq<Task>, b: Book)
    requires |ts| == |b| && forall i :: 0 <= i < |b| ==> ts[i].procTime == b[i].procTime && ts[i].period == b[i].period
    ensures SumUtil(ts) == BookUtil(b)
  {
    if b != [] {
      SharesByTheBook(ts[..|ts| - 1], b[..|b| - 1]);
    }
  }

  /** While the counter is exact, book and module agree on which registrations go through. */
  lemma AdmitsByTheBook(s: State, b: Book, e: Event, msecs: nat -> nat)
    requires Inv(s) && ByTheBook(s, b, msecs)
    ensures BookAdmits(b, e) <==> GoesThrough(s, e)
  {
    forall i | 0 <= i < |b| ensures OnSchedule(s.tasks[i], b[i], s.timers, msecs) {
    }
    SharesByTheBook(s.tasks, b);
    if e.Register? {
      AdditionExact(s.util, e.period, e.procTime);
      PidsByTheBook(s, b, e.pid, msecs);
    }
  }

  lemma PidsByTheBook(s: State, b: Book, pid: Pid, msecs: nat -> nat)
    requires ByTheBook(s, b, msecs)
    ensures InBook(b, pid) <==> HasPid(s.tasks, pid)
  {
    if InBook(b, pid) {
      var i :| 0 <= i < |b| && b[i].pid == pid;
      assert OnSchedule(s.tasks[i], b[i], s.timers, msecs);
    }
    if HasPid(s.tasks, pid) {
      var i :| 0 <= i < |s.tasks| && s.tasks[i].pid == pid;
      assert OnSchedule(s.tasks[i], b[i], s.timers, msecs);
    }
  }

  lemma {:induction false} RunOnSchedule(s: State, b: Book, es: seq<Event>, msecs: nat -> nat)
    requires Inv(s) && ByTheBook(s, b, msecs) && Legal(s, es, msecs)
    ensures Inv(Exec(s, es, msecs)) && ByTheBook(Exec(s, es, msecs), BookAfter(b, s.now, es, msecs), msecs)
    ensures Exec(s, es, msecs).now == ClockAfter(s.now, es)
    decreases |es|
  {
    if es != [] {
      StepKeepsInv(s, es[0], msecs);
      AdmitsByTheBook(s, b, es[0], msecs);
      StepOnSchedule(s, b, es[0], msecs);
      StepClock(s, es[0], msecs);
      RunOnSchedule(Step(s, es[0], msecs), BookStep(b, s.now, es[0], BookAdmits(b, es[0]), msecs), es[1..], msecs);
    }
  }

  /**
  Everything by the book. After any run the list holds exactly the registrations that went through and
  were not taken back, in order and with the arguments they came with; a task that was found by m yields
  has `next_ddl` = first yield + m whole periods, in time or not; it is awake, or its timer is pending at
  the end of the period that its last yield in time began; a task that never yielded is asleep without a
  timer; and the counter is the sum of the shares in the book.
  */
  lemma NoDrift(now: nat, es: seq<Event>, msecs: nat -> nat)
    requires now > 0 && Legal(Boot(now), es, msecs)
    ensures var s, b := Exec(Boot(now), es, msecs), BookAfter([], now, es, msecs);
            && ByTheBook(s, b, msecs)
            && s.util == BookUtil(b)
            && s.now == ClockAfter(now, es)
  {
    RunOnSchedule(Boot(now), [], es, msecs);
    var s, b := Exec(Boot(now), es, msecs), BookAfter([], now, es, msecs);
    forall i | 0 <= i < |b| ensures OnSchedule(s.tasks[i], b[i], s.timers, msecs) {
    }
    SharesByTheBook(s.tasks, b);
  }

  /** The state after a yield, as the book foretells it. */
  ghost function YieldForetold(s: State, k: nat, l: Line, now: nat, msecs: nat -> nat): State
    requires k < |s.tasks|
  {
    var t, ddl := s.tasks[k], PeriodEnd(Noted(l, now, msecs), l.count + 1, msecs);
    if Punctual(l, now, msecs) then
      s.(tasks := s.tasks[k := t.(nextDdl := ddl, state := Sleeping)],
         timers := s.timers[l.addr := Timer(l.pid, ddl)], ct := None, woken := true)
    else
      s.(tasks := s.tasks[k := t.(nextDdl := ddl)])
  }

  lemma YieldVerdict(s: State, b: Book, k: nat, msecs: nat -> nat)
    requires Orderly(s) && ByTheBook(s, b, msecs) && k < |b|
    ensures YieldTask(s, b[k].pid, msecs) == YieldForetold(s, k, b[k], s.now, msecs)
  {
    assert OnSchedule(s.tasks[k], b[k], s.timers, msecs);
    assert IsLast(s.tasks, b[k].pid, k);
    PunctualIsInTime(s.tasks[k], b[k], s.timers, s.now, msecs);
    YieldExactly(s, b[k].pid, msecs, k);
  }

  /**
  How a yield comes out, by the book: in time, the task sleeps with its timer at the end of the period
  just begun, `ct` is free and the dispatcher woken; late, only its deadline moves.
  */
  lemma YieldByTheBook(now: nat, es: seq<Event>, k: nat, msecs: nat -> nat)
    requires now > 0 && Legal(Boot(now), es, msecs) && k < |BookAfter([], now, es, msecs)|
    ensures var s, l := Exec(Boot(now), es, msecs), BookAfter([], now, es, msecs)[k];
            && k < |s.tasks|
            && YieldTask(s, l.pid, msecs) == YieldForetold(s, k, l, ClockAfter(now, es), msecs)
  {
    RunOnSchedule(Boot(now), [], es, msecs);
    YieldVerdict(Exec(Boot(now), es, msecs), BookAfter([], now, es, msecs), k, msecs);
  }

  // ---------------------------------------------------------------- who arms a timer

  lemma OthersNeverArm(s: State, e: Event, msecs: nat -> nat, a: nat)
    requires Sound(s) && Enabled(s, e) && !e.Yield? && a in Step(s, e, msecs).timers
    ensures a in s.timers && s.timers[a] == Step(s, e, msecs).timers[a]
  {
    match e
    case TimerFires(b) => FireExactly(s, b);
    case Deregister(pid) => DeregisterOnlyDeletes(s, pid, a);
    case _ =>
  }

  lemma DeregisterOnlyDeletes(s: State, pid: Pid, a: nat)
    requires Sound(s) && a in DeregisterTask(s, pid).timers
    ensures a in s.timers && s.timers[a] == DeregisterTask(s, pid).timers[a]
  {
  }

  /** What a step may do to the timer at `a`: arm it as the yield of the task there, on that task's deadline. */
  ghost predicate ArmedBy(s: State, s': State, pid: Pid, a: nat) {
    && a in s'.timers && s'.timers[a].expires >= s.now
    && exists k :: 0 <= k < |s'.tasks| && s'.tasks[k].addr == a && s'.tasks[k].pid == pid
         && s'.tasks[k].state == Sleeping && s'.timers[a] == Timer(pid, s'.tasks[k].nextDdl)
  }

  lemma YieldArms(s: State, pid: Pid, msecs: nat -> nat, a: nat)
    requires Sound(s) && YieldSucceeds(s, pid, msecs)
    ensures var s' := YieldTask(s, pid, msecs);
            if a == s.tasks[LastIndex(s.tasks, pid)].addr then ArmedBy(s, s', pid, a)
            else a in s'.timers ==> a in s.timers && s'.timers[a] == s.timers[a]
  {
    var k := LastIndex(s.tasks, pid);
    var s' := YieldTask(s, pid, msecs);
    assert s'.tasks[k].addr == s.tasks[k].addr;
  }

  /**
  The only step that arms a timer is a successful yield; it arms the yielding task's timer at that
  task's new deadline, which is not in the past. Every other step only removes timers.
  */
  lemma ArmedOnlyByYield(s: State, e: Event, msecs: nat -> nat, a: nat)
    requires Sound(s) && Enabled(s, e)
    requires var s' := Step(s, e, msecs); a in s'.timers && (a !in s.timers || s.timers[a] != s'.timers[a])
    ensures e.Yield? && YieldSucceeds(s, e.pid, msecs) && ArmedBy(s, Step(s, e, msecs), e.pid, a)
  {
    if !e.Yield? {
      OthersNeverArm(s, e, msecs, a);
    } else if YieldSucceeds(s, e.pid, msecs) {
      YieldArms(s, e.pid, msecs, a);
    }
  }
}
