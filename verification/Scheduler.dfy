/**
The state machine of the MP2 rate-monotonic scheduler.

One `State` holds everything the module keeps between calls: the registration-ordered task list,
the pending kernel timers, the current-task pointer `ct`, the fixed-point counter `total_util`,
the dispatcher's wake-up flag and the clock. Every entry point is one function on `State`; a run
is a sequence of `Event`s. Task structures are named by their address, as the C code names them
by pointer, so the functions stay meaningful even on a list that holds one pid twice.
*/
module Scheduler {
  import opened Words

  const SHIFT := 0x10_0000                      // 1 << SHIFT_BITS
  const MAX_UTIL := 726663

  type Pid = p: int | 0 <= p < TWO_32
  type Period = p: int | 0 < p < TWO_64 witness 1

  datatype TaskState = Sleeping | Ready | Running

  datatype Task = Task(addr: nat, pid: Pid, period: Period, procTime: Word64, nextDdl: nat, state: TaskState)

  /** A pending kernel timer: the callback's argument and the jiffy at which it may fire. */
  datatype Timer = Timer(data: Pid, expires: nat)

  datatype State = State(
    tasks: seq<Task>,
    ct: Option<nat>,
    timers: map<nat, Timer>,
    util: Word64,
    woken: bool,
    now: nat)

  /** `Register` carries the address the slab allocator hands out; `Tick` lets jiffies advance. */
  datatype Event =
    | Register(addr: nat, pid: Pid, period: Period, procTime: Word64)
    | Yield(pid: Pid)
    | Deregister(pid: Pid)
    | TimerFires(addr: nat)
    | Dispatch
    | Tick(jiffies: nat)

  // ---------------------------------------------------------------- 64-bit arithmetic

  function Add64(a: Word64, b: Word64): Word64 {
    (a + b) % TWO_64
  }

  function Sub64(a: Word64, b: Word64): Word64 {
    (a - b) % TWO_64
  }

  /** `(proc_time << SHIFT_BITS) / period`, with the bits the shift drops. */
  function TruncUtil(procTime: Word64, period: Period): (u: Word64)
    ensures u <= TWO_64 - SHIFT
    ensures procTime < 0x1000_0000_0000 ==> u * period <= procTime * SHIFT < (u + 1) * period
  {
    var shifted := (procTime * SHIFT) % TWO_64;
    ShiftedWord(procTime);
    QuotientBounds(shifted, period);
    shifted / period
  }

  lemma ShiftedWord(procTime: Word64)
    ensures (procTime * SHIFT) % TWO_64 <= TWO_64 - SHIFT
    ensures procTime < 0x1000_0000_0000 ==> (procTime * SHIFT) % TWO_64 == procTime * SHIFT
  {
    var high := procTime / 0x1000_0000_0000;
    var low := procTime % 0x1000_0000_0000;
    assert procTime * SHIFT == high * TWO_64 + low * SHIFT;
    assert 0 <= low * SHIFT < TWO_64;
    assert (procTime * SHIFT) % TWO_64 == low * SHIFT;
  }

  lemma NonNegative(a: nat, b: nat)
    ensures a * b >= 0
  {
  }

  lemma QuotientBounds(x: nat, y: nat)
    requires y > 0
    ensures 0 <= x / y <= x
    ensures x / y * y <= x < (x / y + 1) * y
  {
    var q := x / y;
    assert x == q * y + x % y;
    assert q * y == q + q * (y - 1);
    assert q >= 0;
    NonNegative(q, y - 1);
  }

  // ---------------------------------------------------------------- list look-ups

  ghost predicate HasAddr(ts: seq<Task>, a: nat) {
    exists i :: 0 <= i < |ts| && ts[i].addr == a
  }

  ghost predicate HasPid(ts: seq<Task>, pid: Pid) {
    exists i :: 0 <= i < |ts| && ts[i].pid == pid
  }

  /** The search that stops at the first match (Task_deregister). */
  function FirstIndex(ts: seq<Task>, pid: Pid): (r: int)
    ensures -1 <= r < |ts|
    ensures r >= 0 ==> ts[r].pid == pid && forall j :: 0 <= j < r ==> ts[j].pid != pid
    ensures r < 0 ==> forall j :: 0 <= j < |ts| ==> ts[j].pid != pid
  {
    if ts == [] then -1
    else
      var r := FirstIndex(ts[..|ts| - 1], pid);
      if r >= 0 then r else if ts[|ts| - 1].pid == pid then |ts| - 1 else -1
  }

  /** The search that runs to the end of the list and keeps the last match (Task_yeild). */
  function LastIndex(ts: seq<Task>, pid: Pid): (r: int)
    ensures -1 <= r < |ts|
    ensures r >= 0 ==> ts[r].pid == pid && forall j :: r < j < |ts| ==> ts[j].pid != pid
    ensures r < 0 ==> forall j :: 0 <= j < |ts| ==> ts[j].pid != pid
  {
    if ts == [] then -1
    else if ts[|ts| - 1].pid == pid then |ts| - 1
    else LastIndex(ts[..|ts| - 1], pid)
  }

  function AddrIndex(ts: seq<Task>, a: nat): (r: nat)
    requires HasAddr(ts, a)
    ensures r < |ts| && ts[r].addr == a
  {
    if ts[|ts| - 1].addr == a then |ts| - 1
    else
      assert HasAddr(ts[..|ts| - 1], a) by {
        var i :| 0 <= i < |ts| && ts[i].addr == a;
        assert ts[..|ts| - 1][i].addr == a;
      }
      AddrIndex(ts[..|ts| - 1], a)
  }

  /** Task_get_highest: one pass, replacing the candidate only on a strictly smaller period. */
  function Highest(ts: seq<Task>): (h: int)
    ensures -1 <= h < |ts|
    ensures h < 0 <==> forall j :: 0 <= j < |ts| ==> ts[j].state != Ready
    ensures h >= 0 ==> IsHighest(ts, h)
  {
    if ts == [] then -1
    else
      var n := |ts| - 1;
      var h := Highest(ts[..n]);
      assert forall j :: 0 <= j < n ==> ts[..n][j] == ts[j];
      if ts[n].state == Ready && (h < 0 || ts[n].period < ts[h].period) then n else h
  }

  /** The policy: the earliest-registered READY task among those of minimum period. */
  ghost predicate IsHighest(ts: seq<Task>, h: int) {
    && 0 <= h < |ts|
    && ts[h].state == Ready
    && (forall j :: 0 <= j < |ts| && ts[j].state == Ready ==> ts[h].period <= ts[j].period)
    && (forall j :: 0 <= j < h && ts[j].state == Ready ==> ts[h].period < ts[j].period)
  }

  lemma HighestIsUnique(ts: seq<Task>, h: int)
    ensures IsHighest(ts, h) <==> h == Highest(ts) && h >= 0
  {
  }

  // ---------------------------------------------------------------- list updates

  function SetState(ts: seq<Task>, a: nat, st: TaskState): (r: seq<Task>)
    ensures |r| == |ts|
    ensures forall i :: 0 <= i < |ts| ==> r[i] == if ts[i].addr == a then ts[i].(state := st) else ts[i]
  {
    seq(|ts|, i requires 0 <= i < |ts| => if ts[i].addr == a then ts[i].(state := st) else ts[i])
  }

  function MarkReady(ts: seq<Task>, pid: Pid): (r: seq<Task>)
    ensures |r| == |ts|
    ensures forall i :: 0 <= i < |ts| ==> r[i] == if ts[i].pid == pid then ts[i].(state := Ready) else ts[i]
  {
    seq(|ts|, i requires 0 <= i < |ts| => if ts[i].pid == pid then ts[i].(state := Ready) else ts[i])
  }

  function Remove(ts: seq<Task>, k: nat): (r: seq<Task>)
    requires k < |ts|
    ensures |r| == |ts| - 1
    ensures forall i :: 0 <= i < |r| ==> r[i] == if i < k then ts[i] else ts[i + 1]
    ensures forall t <- r :: t in ts
  {
    ts[..k] + ts[k + 1..]
  }

  // ---------------------------------------------------------------- what every call keeps

  ghost predicate AddrsUnique(ts: seq<Task>) {
    forall i, j :: 0 <= i < j < |ts| ==> ts[i].addr != ts[j].addr
  }

  ghost predicate PidsUnique(ts: seq<Task>) {
    forall i, j :: 0 <= i < j < |ts| ==> ts[i].pid != ts[j].pid
  }

  ghost predicate TimerOwned(ts: seq<Task>, a: nat, tm: Timer) {
    exists i :: 0 <= i < |ts| && ts[i].addr == a && ts[i].pid == tm.data
  }

  /** No dangling pointer: `ct` and every pending timer belong to a listed task. */
  ghost predicate Sound(s: State) {
    && AddrsUnique(s.tasks)
    && (s.ct.Some? ==> HasAddr(s.tasks, s.ct.value))
    && (forall a :: a in s.timers ==> TimerOwned(s.tasks, a, s.timers[a]))
  }

  function CtTask(s: State): (t: Task)
    requires Sound(s) && s.ct.Some?
    ensures t in s.tasks && t.addr == s.ct.value
  {
    s.tasks[AddrIndex(s.tasks, s.ct.value)]
  }

  /** Same tasks in the same order; only `state` and `nextDdl` may differ. */
  ghost predicate SameTasks(ts: seq<Task>, ts': seq<Task>) {
    && |ts| == |ts'|
    && forall i :: 0 <= i < |ts| ==>
         ts'[i] == ts[i].(state := ts'[i].state, nextDdl := ts'[i].nextDdl)
  }

  lemma SameTasksSound(s: State, s': State)
    requires Sound(s) && SameTasks(s.tasks, s'.tasks)
    requires s'.ct.None? || s'.ct == s.ct || HasAddr(s.tasks, s'.ct.value)
    requires forall a :: a in s'.timers ==> TimerOwned(s.tasks, a, s'.timers[a])
    ensures Sound(s')
  {
    forall a | HasAddr(s.tasks, a) ensures HasAddr(s'.tasks, a) {
      var i :| 0 <= i < |s.tasks| && s.tasks[i].addr == a;
      assert s'.tasks[i].addr == a;
    }
    forall a | a in s'.timers ensures TimerOwned(s'.tasks, a, s'.timers[a]) {
      var i :| 0 <= i < |s.tasks| && s.tasks[i].addr == a && s.tasks[i].pid == s'.timers[a].data;
      assert s'.tasks[i].addr == a;
    }
  }

  // ---------------------------------------------------------------- the entry points

  function NewTask(addr: nat, pid: Pid, period: Period, procTime: Word64): Task {
    Task(addr, pid, period, procTime, 0, Sleeping)
  }

  predicate Admissible(util: Word64, period: Period, procTime: Word64) {
    Add64(util, TruncUtil(procTime, period)) < MAX_UTIL
  }

  /** Task_register with its three sections run back to back. */
  function RegisterTask(s: State, addr: nat, pid: Pid, period: Period, procTime: Word64): (s': State)
    requires Sound(s) && !HasAddr(s.tasks, addr)
    ensures Sound(s')
  {
    if FirstIndex(s.tasks, pid) >= 0 || !Admissible(s.util, period, procTime) then s
    else
      var s' := s.(util := Add64(s.util, TruncUtil(procTime, period)),
                   tasks := s.tasks + [NewTask(addr, pid, period, procTime)]);
      AppendSound(s, NewTask(addr, pid, period, procTime), s');
      s'
  }

  lemma AppendSound(s: State, t: Task, s': State)
    requires Sound(s) && !HasAddr(s.tasks, t.addr)
    requires s'.tasks == s.tasks + [t] && s'.ct == s.ct && s'.timers == s.timers
    ensures Sound(s')
  {
    forall a | HasAddr(s.tasks, a) ensures HasAddr(s'.tasks, a) {
      var i :| 0 <= i < |s.tasks| && s.tasks[i].addr == a;
      assert s'.tasks[i].addr == a;
    }
    forall a | a in s'.timers ensures TimerOwned(s'.tasks, a, s'.timers[a]) {
      var i :| 0 <= i < |s.tasks| && s.tasks[i].addr == a && s.tasks[i].pid == s.timers[a].data;
      assert s'.tasks[i].addr == a;
    }
  }

  /** The deadline a yield computes, before the expiry test. */
  function NextDeadline(t: Task, now: nat, msecs: nat -> nat): nat {
    (if t.nextDdl == 0 then now else t.nextDdl) + msecs(t.period)
  }

  predicate Expired(t: Task, now: nat, msecs: nat -> nat) {
    t.nextDdl != 0 && now > NextDeadline(t, now, msecs)
  }

  /** Task_yeild. */
  function YieldTask(s: State, pid: Pid, msecs: nat -> nat): (s': State)
    requires Sound(s)
    ensures Sound(s') && SameTasks(s.tasks, s'.tasks)
  {
    var k := LastIndex(s.tasks, pid);
    if k < 0 then s
    else
      var t := s.tasks[k];
      var ddl := NextDeadline(t, s.now, msecs);
      var s' :=
        if Expired(t, s.now, msecs) then
          s.(tasks := s.tasks[k := t.(nextDdl := ddl)])
        else
          s.(tasks := s.tasks[k := t.(nextDdl := ddl, state := Sleeping)],
             timers := s.timers[t.addr := Timer(pid, ddl)],
             ct := None,
             woken := true);
      assert TimerOwned(s.tasks, t.addr, Timer(pid, ddl));
      SameTasksSound(s, s');
      s'
  }

  /** Task_deregister. */
  function DeregisterTask(s: State, pid: Pid): (s': State)
    requires Sound(s)
    ensures Sound(s')
  {
    var k := FirstIndex(s.tasks, pid);
    if k < 0 then s
    else
      var t := s.tasks[k];
      var isCt := s.ct == Some(t.addr);
      var s' := s.(ct := if isCt then None else s.ct,
                   woken := s.woken || isCt,
                   util := Sub64(s.util, TruncUtil(t.procTime, t.period)),
                   tasks := Remove(s.tasks, k),
                   timers := s.timers - {t.addr});
      RemoveSound(s, k, s');
      s'
  }

  /** A task other than the removed one is still listed. */
  lemma RemoveKeeps(ts: seq<Task>, k: nat, i: nat)
    requires k < |ts| && i < |ts| && i != k
    ensures ts[i] in Remove(ts, k)
  {
    assert Remove(ts, k)[if i < k then i else i - 1] == ts[i];
  }

  lemma RemoveSound(s: State, k: nat, s': State)
    requires Sound(s) && k < |s.tasks|
    requires s'.tasks == Remove(s.tasks, k)
    requires s'.ct.None? || (s'.ct == s.ct && s.ct != Some(s.tasks[k].addr))
    requires s'.timers == s.timers - {s.tasks[k].addr}
    ensures Sound(s')
  {
    if s'.ct.Some? {
      RemoveKeeps(s.tasks, k, AddrIndex(s.tasks, s.ct.value));
    }
    forall a | a in s'.timers ensures TimerOwned(s'.tasks, a, s'.timers[a]) {
      var i :| 0 <= i < |s.tasks| && s.tasks[i].addr == a && s.tasks[i].pid == s.timers[a].data;
      RemoveKeeps(s.tasks, k, i);
    }
  }

  /** mp2_timer_callback, run by the kernel when the timer of the task at `addr` is due. */
  function FireTimer(s: State, addr: nat): (s': State)
    requires Sound(s) && addr in s.timers
    ensures Sound(s') && SameTasks(s.tasks, s'.tasks)
  {
    var s' := s.(tasks := MarkReady(s.tasks, s.timers[addr].data),
                 timers := s.timers - {addr},
                 woken := true);
    SameTasksSound(s, s');
    s'
  }

  /** What the dispatching thread does, given the current and the highest READY task, if any. */
  function Preempted(s: State, current: Option<Task>, highest: Option<Task>): State {
    var freed := if current.None? then s.tasks else SetState(s.tasks, current.value.addr, Ready);
    if highest.None? then
      s.(woken := false, tasks := freed)
    else if current.None? || current.value.period > highest.value.period then
      s.(woken := false, tasks := SetState(freed, highest.value.addr, Running), ct := Some(highest.value.addr))
    else
      s.(woken := false)
  }

  /** One turn of dispaching_thread_function, from its wake-up to the next sleep. */
  function DispatchOnce(s: State): (s': State)
    requires Sound(s)
    ensures Sound(s') && SameTasks(s.tasks, s'.tasks)
  {
    var h := Highest(s.tasks);
    var s' := Preempted(s, if s.ct.None? then None else Some(CtTask(s)), if h < 0 then None else Some(s.tasks[h]));
    assert h >= 0 ==> HasAddr(s.tasks, s.tasks[h].addr);
    SameTasksSound(s, s');
    s'
  }

  // ---------------------------------------------------------------- runs

  ghost predicate Enabled(s: State, e: Event) {
    match e
    case Register(addr, _, _, _) => !HasAddr(s.tasks, addr)
    case TimerFires(addr) => addr in s.timers && s.timers[addr].expires <= s.now
    case _ => true
  }

  ghost function Step(s: State, e: Event, msecs: nat -> nat): (s': State)
    requires Sound(s) && Enabled(s, e)
    ensures Sound(s')
  {
    match e
    case Register(addr, pid, period, procTime) => RegisterTask(s, addr, pid, period, procTime)
    case Yield(pid) => YieldTask(s, pid, msecs)
    case Deregister(pid) => DeregisterTask(s, pid)
    case TimerFires(addr) => FireTimer(s, addr)
    case Dispatch => DispatchOnce(s)
    case Tick(jiffies) => s.(now := s.now + jiffies)
  }

  ghost predicate Legal(s: State, es: seq<Event>, msecs: nat -> nat)
    requires Sound(s)
    decreases |es|
  {
    es == [] || (Enabled(s, es[0]) && Legal(Step(s, es[0], msecs), es[1..], msecs))
  }

  ghost function Exec(s: State, es: seq<Event>, msecs: nat -> nat): (s': State)
    requires Sound(s) && Legal(s, es, msecs)
    ensures Sound(s')
    decreases |es|
  {
    if es == [] then s else Exec(Step(s, es[0], msecs), es[1..], msecs)
  }

  /** The state right after the module is loaded. */
  function Boot(now: nat): (s: State)
    ensures Sound(s)
  {
    State([], None, map[], 0, false, now)
  }

  /** Reachable from loading the module at some positive jiffy, by any interleaving of the calls. */
  ghost predicate Reachable(s: State, msecs: nat -> nat) {
    exists now: nat, es: seq<Event> ::
      now > 0 && Legal(Boot(now), es, msecs) && Exec(Boot(now), es, msecs) == s
  }
}
