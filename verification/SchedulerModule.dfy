/**
The MP2 kernel module in its own form: task structures on the heap, linked in registration order,
whose fields the entry points assign in place. Every method is proved to carry out exactly one step
of the state machine in module Scheduler, so the results about runs speak about this code.
*/
module SchedulerModule {
  import opened Words
  import opened Scheduler
  import opened Effects

  /** struct mp2_task_struct. */
  class TaskStruct {
    const addr: nat
    const pid: Pid
    const period: Period
    const procTime: Word64
    var nextDdl: nat
    var state: TaskState

    constructor (addr: nat, pid: Pid, period: Period, procTime: Word64)
      ensures this.addr == addr && this.pid == pid && this.period == period && this.procTime == procTime
      ensures nextDdl == 0 && state == Sleeping
    {
      this.addr, this.pid, this.period, this.procTime := addr, pid, period, procTime;
      nextDdl, state := 0, Sleeping;
    }

    ghost function View(): Task
      reads this
    {
      Task(addr, pid, period, procTime, nextDdl, state)
    }
  }

  ghost predicate Mirrors(vs: seq<Task>, ts: seq<TaskStruct>)
    reads ts
  {
    |vs| == |ts| && forall i :: 0 <= i < |ts| ==> vs[i] == ts[i].View()
  }

  class Module {
    var tasks: seq<TaskStruct>
    var ct: TaskStruct?
    var totalUtil: Word64
    var timers: map<nat, Timer>       // the kernel's pending timers, by the structure they live in
    var woken: bool                   // wake_up_process called since the dispatcher last ran
    var jiffies: nat
    ghost var view: State             // the same as one value of the model

    ghost predicate Valid()
      reads this, tasks
    {
      Sound(view) && Shows(view)
    }

    /** The fields, read as one value of the model, are `v`. */
    ghost predicate Shows(v: State)
      reads `tasks, `ct, `timers, `totalUtil, `woken, `jiffies, tasks
    {
      && Mirrors(v.tasks, tasks)
      && (ct == null ==> v.ct == None)
      && (ct != null ==> ct in tasks && v.ct == Some(ct.addr))
      && v == State(v.tasks, v.ct, timers, totalUtil, woken, jiffies)
    }

    constructor (jiffies: nat)
      ensures Valid() && view == Boot(jiffies)
      ensures tasks == [] && ct == null && totalUtil == 0 && timers == map[] && !woken && this.jiffies == jiffies
    {
      tasks, ct, totalUtil, timers, woken := [], null, 0, map[], false;
      this.jiffies := jiffies;
      view := Boot(jiffies);
    }

    /** Task_register; `addr` is what the slab allocator returns. */
    method Register(addr: nat, pid: Pid, period: Period, procTime: Word64) returns (ret: int)
      requires Valid() && !HasAddr(view.tasks, addr)
      modifies this
      ensures Valid() && view == RegisterTask(old(view), addr, pid, period, procTime)
      ensures ret == if HasPid(old(view).tasks, pid) || !Admissible(old(totalUtil), period, procTime) then -1 else 0
      ensures ret == -1 ==> view == old(view) && tasks == old(tasks)
      ensures ret == 0 ==>
                && Appends(old(view).tasks, view.tasks, addr, pid, period, procTime)
                && |tasks| == |old(tasks)| + 1 && old(tasks) <= tasks && fresh(tasks[|old(tasks)|])
    {
      for i := 0 to |tasks|
        invariant forall j :: 0 <= j < i ==> tasks[j].pid != pid
      {
        if tasks[i].pid == pid {
          assert view.tasks[i].pid == pid;
          return -1;
        }
      }
      assert FirstIndex(view.tasks, pid) < 0;
      if Add64(totalUtil, TruncUtil(procTime, period)) >= MAX_UTIL {
        return -1;
      }
      view := RegisterTask(view, addr, pid, period, procTime);
      totalUtil := Add64(totalUtil, TruncUtil(procTime, period));
      var newTask := new TaskStruct(addr, pid, period, procTime);
      tasks := tasks + [newTask];
      return 0;
    }

    /** The search loop of Task_yeild, which keeps the last match. */
    method FindLast(pid: Pid) returns (found: int)
      requires Valid()
      ensures found == LastIndex(view.tasks, pid)
    {
      found := -1;
      for i := 0 to |tasks|
        invariant -1 <= found < i
        invariant found >= 0 ==> tasks[found].pid == pid
        invariant forall j :: found < j < i ==> tasks[j].pid != pid
      {
        if tasks[i].pid == pid {
          found := i;
        }
      }
      assert forall j :: 0 <= j < |tasks| ==> view.tasks[j].pid == tasks[j].pid;
    }

    /** The deadline section of Task_yeild on the task found; `late` is the expiry branch. */
    method MoveDeadline(task: TaskStruct, k: nat, msecs: nat -> nat, ghost before: seq<Task>) returns (late: bool)
      requires k < |tasks| && task == tasks[k] && Mirrors(before, tasks) && AddrsUnique(before)
      modifies tasks
      ensures late <==> !InTime(before[k], jiffies, msecs)
      ensures var ddl := Moved(before[k], jiffies, msecs);
              && task.nextDdl == ddl
              && Mirrors(before[k := before[k].(nextDdl := ddl, state := if late then before[k].state else Sleeping)], tasks)
    {
      Distinct(before, tasks);
      assert task.View() == before[k];
      if task.nextDdl == 0 {
        task.nextDdl := jiffies + msecs(task.period);
      } else {
        task.nextDdl := task.nextDdl + msecs(task.period);
        if jiffies > task.nextDdl {
          return true;
        }
      }
      task.state := Sleeping;
      return false;
    }

    /** Task_yeild. */
    method Yield(pid: Pid, msecs: nat -> nat) returns (ret: int)
      requires Valid()
      modifies this, tasks
      ensures Valid() && view == YieldTask(old(view), pid, msecs) && tasks == old(tasks)
      ensures ret == if YieldSucceeds(old(view), pid, msecs) then 0 else -1
    {
      var found := FindLast(pid);
      if found < 0 {
        return -1;
      }
      var task := tasks[found];
      assert task.View() == view.tasks[found];
      ghost var next := YieldTask(view, pid, msecs);
      var late := MoveDeadline(task, found, msecs, view.tasks);
      if late {
        Commit(next);
        return -1;
      }
      GoToSleep(task, pid, next);
      return 0;
    }

    /** The rest of Task_yeild: arm the timer, give up the CPU, wake the dispatcher. */
    method GoToSleep(task: TaskStruct, pid: Pid, ghost next: State)
      requires Sound(next) && Mirrors(next.tasks, tasks)
      requires next == State(next.tasks, None, timers[task.addr := Timer(pid, task.nextDdl)], totalUtil, true, jiffies)
      modifies `timers, `ct, `woken, `view
      ensures Valid() && view == next
    {
      timers := timers[task.addr := Timer(pid, task.nextDdl)];
      ct := null;
      woken := true;
      Commit(next);
    }

    /** The search loop of Task_deregister, which stops at the first match. */
    method FindFirst(pid: Pid) returns (found: int)
      requires Valid()
      ensures found == FirstIndex(view.tasks, pid)
    {
      found := 0;
      while found < |tasks| && tasks[found].pid != pid
        invariant 0 <= found <= |tasks|
        invariant forall j :: 0 <= j < found ==> tasks[j].pid != pid
      {
        found := found + 1;
      }
      assert forall j :: 0 <= j < |tasks| ==> view.tasks[j].pid == tasks[j].pid;
      if found == |tasks| {
        found := -1;
      }
    }

    /** Task_deregister. */
    method Deregister(pid: Pid) returns (ret: int)
      requires Valid()
      modifies this
      ensures Valid() && view == DeregisterTask(old(view), pid)
      ensures ret == if HasPid(old(view).tasks, pid) then 0 else -1
      ensures if FreesCurrent(old(view), pid) then ct == null && woken else ct == old(ct) && woken == old(woken)
    {
      var found := FindFirst(pid);
      if found < 0 {
        return -1;
      }
      var task := tasks[found];
      assert task.View() == view.tasks[found];
      Distinct(view.tasks, tasks);
      RemoveMirrors(view.tasks, tasks, found);
      ghost var next := DeregisterTask(view, pid);
      if task == ct {
        ct := null;
        woken := true;
      }
      Unlink(found, next);
      return 0;
    }

    /** The rest of Task_deregister: take back the share, unlink the structure, delete its timer. */
    method Unlink(k: nat, ghost next: State)
      requires k < |tasks| && Sound(next) && Mirrors(next.tasks, tasks[..k] + tasks[k + 1..])
      requires if ct == null then next.ct == None else ct in tasks[..k] + tasks[k + 1..] && next.ct == Some(ct.addr)
      requires var t := tasks[k];
               next == State(next.tasks, next.ct, timers - {t.addr}, Sub64(totalUtil, TruncUtil(t.procTime, t.period)),
                             woken, jiffies)
      modifies `totalUtil, `tasks, `timers, `view
      ensures Valid() && view == next
    {
      var task := tasks[k];
      totalUtil := Sub64(totalUtil, TruncUtil(task.procTime, task.period));
      tasks := tasks[..k] + tasks[k + 1..];
      timers := timers - {task.addr};
      Commit(next);
    }

    /**
    Task_destroy: every listed structure is unlinked with its timer deleted. No pending timer is left,
    because no timer ever belonged to a structure outside the list.
    */
    method Destroy()
      requires Valid()
      modifies `tasks, `timers
      ensures tasks == [] && timers == map[]
    {
      TimersInList(tasks, view);
      while tasks != []
        invariant forall a :: a in timers ==> InList(tasks, a)
        decreases |tasks|
      {
        var itr := tasks[0];
        timers := timers - {itr.addr};
        forall a | a in timers ensures InList(tasks[1..], a) {
          var i :| 0 <= i < |tasks| && tasks[i].addr == a;
          assert tasks[1..][i - 1].addr == a;
        }
        tasks := tasks[1..];
      }
    }

    /** The callback's loop over the list. */
    method WakeAll(data: Pid, ghost before: seq<Task>)
      requires Mirrors(before, tasks) && AddrsUnique(before)
      modifies tasks
      ensures Mirrors(MarkReady(before, data), tasks)
    {
      Distinct(before, tasks);
      for i := 0 to |tasks|
        invariant forall j :: 0 <= j < |tasks| ==>
          tasks[j].View() == if j < i && before[j].pid == data then before[j].(state := Ready) else before[j]
      {
        if tasks[i].pid == data {
          tasks[i].state := Ready;
        }
      }
    }

    /** mp2_timer_callback, called by the kernel for the pending timer in the structure at `addr`. */
    method TimerCallback(addr: nat)
      requires Valid() && addr in timers
      modifies this, tasks
      ensures Valid() && view == FireTimer(old(view), addr) && tasks == old(tasks)
    {
      WakeAll(timers[addr].data, view.tasks);
      view := FireTimer(view, addr);
      timers := timers - {addr};
      woken := true;
    }

    /** Task_get_highest. */
    method GetHighest() returns (highest: TaskStruct?)
      requires Valid()
      ensures highest == null <==> forall t :: t in tasks ==> t.state != Ready
      ensures highest == null <==> Highest(view.tasks) < 0
      ensures highest != null ==> highest == tasks[Highest(view.tasks)]
    {
      highest := null;
      for i := 0 to |tasks|
        invariant highest == null <==> Highest(view.tasks[..i]) < 0
        invariant highest != null ==> highest == tasks[Highest(view.tasks[..i])]
      {
        assert view.tasks[..i + 1][..i] == view.tasks[..i];
        assert view.tasks[i] == tasks[i].View();
        if tasks[i].state == Ready {
          if highest == null {
            highest := tasks[i];
          } else if tasks[i].period < highest.period {
            highest := tasks[i];
          }
        }
      }
      assert view.tasks[..|tasks|] == view.tasks;
      assert forall j :: 0 <= j < |tasks| ==> view.tasks[j].state == tasks[j].state;
    }

    /** `task->state = st` for a listed task. */
    method Assign(task: TaskStruct, st: TaskState, ghost before: seq<Task>)
      requires task in tasks && Mirrors(before, tasks) && AddrsUnique(before)
      modifies task`state
      ensures Mirrors(SetState(before, task.addr, st), tasks)
    {
      Distinct(before, tasks);
      task.state := st;
    }

    /** The dispatcher's preemption: run `highest` if there is no current task or it has a longer period. */
    method Preempt(highest: TaskStruct, ghost before: seq<Task>)
      requires highest in tasks && (ct != null ==> ct in tasks)
      requires Mirrors(before, tasks) && AddrsUnique(before)
      modifies this`ct, tasks
      ensures if old(ct) == null || old(ct).period > highest.period then
                var freed := if old(ct) == null then before else SetState(before, old(ct).addr, Ready);
                Mirrors(SetState(freed, highest.addr, Running), tasks) && ct == highest
              else
                Mirrors(before, tasks) && ct == old(ct)
    {
      ghost var now := before;
      if ct != null && ct.period > highest.period {
        Assign(ct, Ready, now);
        now := SetState(now, ct.addr, Ready);
      }
      if ct == null || ct.period > highest.period {
        Assign(highest, Running, now);
        ct := highest;
      }
    }

    /** One turn of the dispatching thread once `highest` is known. */
    method Redispatch(highest: TaskStruct?, ghost before: State)
      requires Shows(before) && AddrsUnique(before.tasks) && (highest != null ==> highest in tasks)
      modifies this`ct, this`woken, tasks
      ensures Shows(Preempted(before,
                              if old(ct) == null then None else Some(old(ct.View())),
                              if highest == null then None else Some(old(highest.View()))))
    {
      woken := false;
      if highest == null {
        if ct != null {
          Assign(ct, Ready, before.tasks);
        }
      } else {
        Preempt(highest, before.tasks);
      }
    }

    /** The body of the dispatching thread's loop, after it has been woken. */
    method Dispatch()
      requires Valid()
      modifies this, tasks
      ensures Valid() && view == DispatchOnce(old(view)) && tasks == old(tasks)
    {
      var highest := GetHighest();
      DispatchSeen(tasks, ct, highest, view);
      ghost var next := DispatchOnce(view);
      Redispatch(highest, view);
      Commit(next);
    }

    ghost method Commit(next: State)
      requires Sound(next) && Shows(next)
      modifies `view
      ensures Valid() && view == next
    {
      view := next;
    }
  }

  lemma CtSeen(ts: seq<TaskStruct>, ct: TaskStruct, view: State)
    requires Mirrors(view.tasks, ts) && Sound(view) && ct in ts && view.ct == Some(ct.addr)
    ensures CtTask(view) == ct.View()
  {
    var k :| 0 <= k < |ts| && ts[k] == ct;
    assert view.tasks[k] == ct.View();
    CtAt(view, k);
  }

  /** What the dispatching thread sees through its two pointers is what the model selects by address and index. */
  lemma DispatchSeen(ts: seq<TaskStruct>, ct: TaskStruct?, highest: TaskStruct?, view: State)
    requires Mirrors(view.tasks, ts) && Sound(view)
    requires if ct == null then view.ct == None else ct in ts && view.ct == Some(ct.addr)
    requires if highest == null then Highest(view.tasks) < 0
             else Highest(view.tasks) >= 0 && highest == ts[Highest(view.tasks)]
    ensures DispatchOnce(view) == Preempted(view,
                                            if ct == null then None else Some(ct.View()),
                                            if highest == null then None else Some(highest.View()))
  {
    if ct != null {
      CtSeen(ts, ct, view);
    }
  }

  ghost predicate InList(ts: seq<TaskStruct>, a: nat) {
    exists i :: 0 <= i < |ts| && ts[i].addr == a
  }

  lemma TimersInList(ts: seq<TaskStruct>, view: State)
    requires Mirrors(view.tasks, ts) && Sound(view)
    ensures forall a :: a in view.timers ==> InList(ts, a)
  {
    forall a | a in view.timers ensures InList(ts, a) {
      var i :| 0 <= i < |view.tasks| && view.tasks[i].addr == a && view.tasks[i].pid == view.timers[a].data;
      assert ts[i].addr == a;
    }
  }

  lemma RemoveMirrors(vs: seq<Task>, ts: seq<TaskStruct>, k: nat)
    requires Mirrors(vs, ts) && k < |ts|
    ensures Mirrors(Remove(vs, k), ts[..k] + ts[k + 1..])
  {
  }

  /** Distinct addresses: distinct places in the list hold distinct objects. */
  lemma Distinct(vs: seq<Task>, ts: seq<TaskStruct>)
    requires Mirrors(vs, ts) && AddrsUnique(vs)
    ensures forall i, j :: 0 <= i < j < |ts| ==> ts[i] != ts[j] && ts[i].addr != ts[j].addr
  {
    forall i, j | 0 <= i < j < |ts| ensures ts[i].addr != ts[j].addr {
      assert vs[i] == ts[i].View() && vs[j] == ts[j].View();
    }
  }
}
