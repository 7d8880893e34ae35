/**
The MP3 kernel module in its own form: the pid list, the work item and the shared buffer as fields
that the entry points update. Each method is proved to perform one step of module Sampler, and the
work handler to push exactly the records of that step, in order.
*/
module ProfilerModule {
  import opened Words
  import opened Ring
  import opened Sampler

  lemma PushOneMore(r: Ring, snaps: seq<Snapshot>, snap: Snapshot)
    requires WellFormed(r)
    ensures PushAll(r, AsRecords(snaps + [snap])) == Push(PushAll(r, AsRecords(snaps)), AsRecord(snap))
  {
    var all := AsRecords(snaps + [snap]);
    assert all[..|snaps|] == AsRecords(snaps);
  }

  class Profiler {
    var tasks: seq<Entry>
    var procs: map<LivePid, Counters>
    var queued: bool
    const vmem: VmemBuf

    ghost function View(): State
      reads this
    {
      State(tasks, procs, queued)
    }

    /** TaskList_init, on a system whose processes have the counters `procs`. */
    constructor (procs: map<LivePid, Counters>)
      ensures View() == State([], procs, false)
      ensures fresh(vmem) && fresh(vmem.cells) && vmem.Valid() && vmem.View() == Fresh()
    {
      this.tasks, this.procs, this.queued := [], procs, false;
      vmem := new VmemBuf();
    }

    /** Task_register. */
    method Register(pid: Pid32, now: nat) returns (ret: int)
      modifies this
      ensures View() == RegisterPid(old(View()), pid, now)
      ensures ret == if IndexOf(old(tasks), pid) >= 0 then -1 else 0
    {
      for i := 0 to |tasks|
        invariant forall j :: 0 <= j < i ==> tasks[j].pid != pid
      {
        if tasks[i].pid == pid {
          return -1;
        }
      }
      if tasks == [] {
        queued := true;
      }
      tasks := tasks + [Entry(pid, now, CLEARED)];
      return 0;
    }

    /** The search loop of Task_deregister. */
    method Find(pid: Pid32) returns (k: int)
      ensures k == IndexOf(tasks, pid)
    {
      k := 0;
      while k < |tasks| && tasks[k].pid != pid
        invariant 0 <= k <= |tasks|
        invariant forall j :: 0 <= j < k ==> tasks[j].pid != pid
      {
        k := k + 1;
      }
      if k == |tasks| {
        k := -1;
      }
    }

    /** Task_deregister. */
    method Deregister(pid: Pid32) returns (ret: int)
      modifies this
      ensures View() == DeregisterPid(old(View()), pid)
      ensures ret == if IndexOf(old(tasks), pid) >= 0 then 0 else -1
    {
      var k := Find(pid);
      if k < 0 {
        return -1;
      }
      tasks := tasks[..k] + tasks[k + 1..];
      if tasks == [] {
        queued := false;
      }
      return 0;
    }

    /** get_cpu_use: hand out the four counters and clear them; -1 for a pid that is not alive. */
    method GetCpuUse(pid: Pid32) returns (ret: int, c: Counters)
      modifies `procs
      ensures ret == 0 <==> pid in old(procs)
      ensures ret == 0 || (ret == -1 && procs == old(procs))
      ensures ret == 0 ==> c == old(procs)[pid] && procs == old(procs)[pid := CLEARED]
    {
      ret, c := -1, CLEARED;
      if pid in procs {
        c := procs[pid];
        procs := procs[pid := CLEARED];
        ret := 0;
      }
    }

    /** The body of the handler's loop for entry k. */
    method SampleEntry(k: nat, now: nat) returns (alive: bool)
      requires vmem.Valid() && k < |tasks|
      modifies `tasks, `procs, vmem, vmem.cells
      ensures vmem.Valid() && alive == (old(tasks)[k].pid in old(procs))
      ensures !alive ==> View() == old(View()) && vmem.View() == old(vmem.View())
      ensures alive ==>
                var pid := old(tasks)[k].pid;
                && View() == SampleOne(old(View()), k, now)
                && vmem.View() == Push(old(vmem.View()), AsRecord(Snapshot(pid, old(procs)[pid])))
    {
      var pid := tasks[k].pid;
      var ret, c := GetCpuUse(pid);
      if ret != 0 {
        return false;
      }
      tasks := tasks[k := Entry(pid, now, c)];
      vmem.PushNext(pid, c.minFlt, c.majFlt, (c.utime + c.stime) % TWO_64);
      return true;
    }

    /** wq_handler. */
    method WqHandler(now: nat)
      requires vmem.Valid() && queued
      modifies this, vmem, vmem.cells
      ensures vmem.Valid()
      ensures View() == TickOnce(old(View()), now).0
      ensures vmem.View() == PushAll(old(vmem.View()), AsRecords(TickOnce(old(View()), now).1))
    {
      queued := false;
      ghost var begun := TickStart(View(), vmem.View(), now);
      ghost var done: seq<Snapshot> := [];
      TickStarts(begun);
      var k := 0;
      while k < |tasks|
        invariant vmem.Valid() && k <= |tasks|
        invariant Underway(begun, View(), vmem.View(), k, done)
        decreases |tasks| - k
      {
        TickStep(begun, View(), vmem.View(), k, done);
        ghost var pid := tasks[k].pid;
        done := if pid in procs then done + [Snapshot(pid, procs[pid])] else done;
        var alive := SampleEntry(k, now);
        if !alive {
          return;
        }
        k := k + 1;
      }
      TickEnds(begun, View(), vmem.View(), done);
      queued := true;
    }
  }

  /** A tick seen from its start: the list and counters, the buffer, the time. */
  datatype TickStart = TickStart(s: State, ring: Ring, now: nat)

  /** After k entries, with the snapshots `done` pushed, the rest of the tick is still to come. */
  ghost predicate Underway(t: TickStart, s: State, ring: Ring, k: nat, done: seq<Snapshot>) {
    && WellFormed(t.ring) && k <= |s.tasks| && !s.queued
    && SampleFrom(t.s, 0, t.now) == (SampleFrom(s, k, t.now).0, done + SampleFrom(s, k, t.now).1)
    && ring == PushAll(t.ring, AsRecords(done))
  }

  lemma TickStarts(t: TickStart)
    requires WellFormed(t.ring) && !t.s.queued
    ensures Underway(t, t.s, t.ring, 0, [])
  {
    assert AsRecords([]) == [];
    assert [] + SampleFrom(t.s, 0, t.now).1 == SampleFrom(t.s, 0, t.now).1;
  }

  lemma TickStep(t: TickStart, s: State, ring: Ring, k: nat, done: seq<Snapshot>)
    requires Underway(t, s, ring, k, done) && k < |s.tasks| && WellFormed(ring)
    ensures var pid := s.tasks[k].pid;
            if pid in s.procs then
              var snap := Snapshot(pid, s.procs[pid]);
              Underway(t, SampleOne(s, k, t.now), Push(ring, AsRecord(snap)), k + 1, done + [snap])
            else
              && s == SampleFrom(t.s, 0, t.now).0
              && ring == PushAll(t.ring, AsRecords(SampleFrom(t.s, 0, t.now).1))
  {
    var pid := s.tasks[k].pid;
    if pid in s.procs {
      SampleUnfolds(s, k, t.now, done);
      PushOneMore(t.ring, done, Snapshot(pid, s.procs[pid]));
    } else {
      assert done + [] == done;
    }
  }

  lemma SampleUnfolds(s: State, k: nat, now: nat, done: seq<Snapshot>)
    requires k < |s.tasks| && s.tasks[k].pid in s.procs
    ensures var snap := Snapshot(s.tasks[k].pid, s.procs[s.tasks[k].pid]);
            var rest := SampleFrom(SampleOne(s, k, now), k + 1, now);
            && SampleFrom(s, k, now).0 == rest.0
            && done + SampleFrom(s, k, now).1 == done + [snap] + rest.1
  {
  }

  lemma TickEnds(t: TickStart, s: State, ring: Ring, done: seq<Snapshot>)
    requires Underway(t, s, ring, |s.tasks|, done)
    ensures SampleFrom(t.s, 0, t.now) == (s.(queued := true), done)
    ensures ring == PushAll(t.ring, AsRecords(done))
  {
    assert done + [] == done;
  }
}
