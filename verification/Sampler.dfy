/**
The sampling side of MP3: the list of profiled pids, the periodic work item that reads and clears
each process's counters, and the records it pushes. The main result is conservation: every page
fault and every CPU jiffy of a process is either in a pushed record, still in its counter, or was
lost when the process exited (or when its 64-bit counter wrapped).
*/
module Sampler {
  import opened Words
  import opened Ring

  /** A process the kernel can find: pids of processes are positive. */
  type LivePid = p: int | 0 < p < 0x8000_0000 witness 1

  /** The counters of a kernel task_struct that get_cpu_use reads and clears. */
  datatype Counters = Counters(minFlt: Word64, majFlt: Word64, utime: Word64, stime: Word64)

  datatype Channel = Minor | Major | User | System

  const CLEARED := Counters(0, 0, 0, 0)

  function Value(c: Counters, ch: Channel): Word64 {
    match ch
    case Minor => c.minFlt
    case Major => c.majFlt
    case User => c.utime
    case System => c.stime
  }

  function Bump(x: Word64): Word64 {
    if x + 1 == TWO_64 then 0 else x + 1
  }

  function Increment(c: Counters, ch: Channel): Counters {
    match ch
    case Minor => c.(minFlt := Bump(c.minFlt))
    case Major => c.(majFlt := Bump(c.majFlt))
    case User => c.(utime := Bump(c.utime))
    case System => c.(stime := Bump(c.stime))
  }

  /** struct mp3_task_struct: the pid and what the last sample read. */
  datatype Entry = Entry(pid: Pid32, lastJiffies: nat, last: Counters)

  /** `procs` are the live processes; `queued` says whether the work item is on its queue. */
  datatype State = State(tasks: seq<Entry>, procs: map<LivePid, Counters>, queued: bool)

  datatype Snapshot = Snapshot(pid: LivePid, counters: Counters)

  datatype Event =
    | Spawn(pid: LivePid)
    | Exit(pid: LivePid)
    | Accrue(pid: LivePid, ch: Channel)           // one fault, or one jiffy of CPU time
    | Register(target: Pid32, now: nat)
    | Deregister(target: Pid32)
    | Tick(now: nat)

  // ---------------------------------------------------------------- operations

  function IndexOf(ts: seq<Entry>, pid: Pid32): (r: int)
    ensures -1 <= r < |ts|
    ensures r >= 0 ==> ts[r].pid == pid && forall j :: 0 <= j < r ==> ts[j].pid != pid
    ensures r < 0 ==> forall j :: 0 <= j < |ts| ==> ts[j].pid != pid
  {
    if ts == [] then -1
    else
      var r := IndexOf(ts[..|ts| - 1], pid);
      if r >= 0 then r else if ts[|ts| - 1].pid == pid then |ts| - 1 else -1
  }

  function RegisterPid(s: State, pid: Pid32, now: nat): State {
    if IndexOf(s.tasks, pid) >= 0 then s
    else s.(tasks := s.tasks + [Entry(pid, now, CLEARED)], queued := s.queued || s.tasks == [])
  }

  function DeregisterPid(s: State, pid: Pid32): State {
    var k := IndexOf(s.tasks, pid);
    if k < 0 then s
    else
      var rest := s.tasks[..k] + s.tasks[k + 1..];
      s.(tasks := rest, queued := s.queued && rest != [])
  }

  /** One entry of the handler's loop: read and clear the counters, note them, report them. */
  function SampleOne(s: State, k: nat, now: nat): State
    requires k < |s.tasks| && s.tasks[k].pid in s.procs
  {
    var pid := s.tasks[k].pid;
    s.(procs := s.procs[pid := CLEARED],
       tasks := s.tasks[k := Entry(pid, now, s.procs[pid])])
  }

  /** wq_handler from entry k on; it gives up, and does not requeue itself, at the first dead pid. */
  function SampleFrom(s: State, k: nat, now: nat): (r: (State, seq<Snapshot>))
    requires k <= |s.tasks|
    decreases |s.tasks| - k
  {
    if k == |s.tasks| then (s.(queued := true), [])
    else if s.tasks[k].pid !in s.procs then (s, [])
    else
      var rest := SampleFrom(SampleOne(s, k, now), k + 1, now);
      (rest.0, [Snapshot(s.tasks[k].pid, s.procs[s.tasks[k].pid])] + rest.1)
  }

  function TickOnce(s: State, now: nat): (State, seq<Snapshot>) {
    SampleFrom(s.(queued := false), 0, now)
  }

  /** The record a snapshot is pushed as; utime + stime is an unsigned long sum. */
  function AsRecord(snap: Snapshot): Record {
    Encode(snap.pid, snap.counters.minFlt, snap.counters.majFlt,
           (snap.counters.utime + snap.counters.stime) % TWO_64)
  }

  function AsRecords(snaps: seq<Snapshot>): (r: seq<Record>)
    ensures |r| == |snaps| && forall k :: 0 <= k < |snaps| ==> r[k] == AsRecord(snaps[k])
  {
    seq(|snaps|, k requires 0 <= k < |snaps| => AsRecord(snaps[k]))
  }

  // ---------------------------------------------------------------- runs

  predicate Enabled(s: State, e: Event) {
    match e
    case Spawn(pid) => pid !in s.procs
    case Exit(pid) => pid in s.procs
    case Accrue(pid, _) => pid in s.procs
    case Tick(_) => s.queued
    case _ => true
  }

  function Step(s: State, e: Event): (r: (State, seq<Snapshot>))
    requires Enabled(s, e)
  {
    match e
    case Spawn(pid) => (s.(procs := s.procs[pid := CLEARED]), [])
    case Exit(pid) => (s.(procs := s.procs - {pid}), [])
    case Accrue(pid, ch) => (s.(procs := s.procs[pid := Increment(s.procs[pid], ch)]), [])
    case Register(pid, now) => (RegisterPid(s, pid, now), [])
    case Deregister(pid) => (DeregisterPid(s, pid), [])
    case Tick(now) => TickOnce(s, now)
  }

  predicate Legal(s: State, es: seq<Event>)
    decreases |es|
  {
    es == [] || (Enabled(s, es[0]) && Legal(Step(s, es[0]).0, es[1..]))
  }

  function Exec(s: State, es: seq<Event>): (r: (State, seq<Snapshot>))
    requires Legal(s, es)
    decreases |es|
  {
    if es == [] then (s, [])
    else
      var now := Step(s, es[0]);
      var later := Exec(now.0, es[1..]);
      (later.0, now.1 + later.1)
  }

  // ---------------------------------------------------------------- bookkeeping for one pid and channel

  function Residual(s: State, p: LivePid, ch: Channel): nat {
    if p in s.procs then Value(s.procs[p], ch) else 0
  }

  function Collected(snaps: seq<Snapshot>, p: LivePid, ch: Channel): nat {
    if snaps == [] then 0
    else (if snaps[0].pid == p then Value(snaps[0].counters, ch) else 0) + Collected(snaps[1..], p, ch)
  }

  /** How many faults or jiffies of p the events contain. */
  function Accrued(es: seq<Event>, p: LivePid, ch: Channel): nat {
    if es == [] then 0 else (if es[0] == Accrue(p, ch) then 1 else 0) + Accrued(es[1..], p, ch)
  }

  /** What an event makes unrecoverable: the counter of an exiting process, or 2^64 when it wraps. */
  function LostBy(s: State, e: Event, p: LivePid, ch: Channel): nat {
    if e == Exit(p) then Residual(s, p, ch)
    else if e == Accrue(p, ch) && Residual(s, p, ch) + 1 == TWO_64 then TWO_64
    else 0
  }

  function Lost(s: State, es: seq<Event>, p: LivePid, ch: Channel): nat
    requires Legal(s, es)
    decreases |es|
  {
    if es == [] then 0 else LostBy(s, es[0], p, ch) + Lost(Step(s, es[0]).0, es[1..], p, ch)
  }

  lemma {:induction false} CollectedAppend(a: seq<Snapshot>, b: seq<Snapshot>, p: LivePid, ch: Channel)
    ensures Collected(a + b, p, ch) == Collected(a, p, ch) + Collected(b, p, ch)
  {
    if a == [] {
      assert a + b == b;
    } else {
      assert (a + b)[1..] == a[1..] + b;
      CollectedAppend(a[1..], b, p, ch);
    }
  }

  /** What a tick takes out of the counters is what it reports, even if it gives up half way. */
  lemma {:induction false} SampleConserves(s: State, k: nat, now: nat, p: LivePid, ch: Channel)
    requires k <= |s.tasks|
    ensures var r := SampleFrom(s, k, now);
            Residual(s, p, ch) == Collected(r.1, p, ch) + Residual(r.0, p, ch)
    decreases |s.tasks| - k
  {
    if k < |s.tasks| && s.tasks[k].pid in s.procs {
      var pid := s.tasks[k].pid;
      var rest := SampleFrom(SampleOne(s, k, now), k + 1, now).1;
      SampleConserves(SampleOne(s, k, now), k + 1, now, p, ch);
      assert ([Snapshot(pid, s.procs[pid])] + rest)[1..] == rest;
    }
  }

  lemma StepConserves(s: State, e: Event, p: LivePid, ch: Channel)
    requires Enabled(s, e)
    ensures var r := Step(s, e);
            (if e == Accrue(p, ch) then 1 else 0) + Residual(s, p, ch)
            == Collected(r.1, p, ch) + Residual(r.0, p, ch) + LostBy(s, e, p, ch)
  {
    if e.Tick? {
      SampleConserves(s.(queued := false), 0, e.now, p, ch);
    }
  }

  /**
  Conservation. For every pid, every channel and every run: what accrued is what was collected
  into snapshots, plus what is still in the counter, plus what was lost to exits and wrap-around.
  */
  lemma {:induction false} RunConserves(s: State, es: seq<Event>, p: LivePid, ch: Channel)
    requires Legal(s, es)
    ensures var r := Exec(s, es);
            Accrued(es, p, ch) + Residual(s, p, ch)
            == Collected(r.1, p, ch) + Residual(r.0, p, ch) + Lost(s, es, p, ch)
    decreases |es|
  {
    if es != [] {
      var now := Step(s, es[0]);
      StepConserves(s, es[0], p, ch);
      RunConserves(now.0, es[1..], p, ch);
      CollectedAppend(now.1, Exec(now.0, es[1..]).1, p, ch);
    }
  }

  // ---------------------------------------------------------------- the same in terms of the cells

  datatype Column = MinorCol | MajorCol | UtilCol

  function Cell(rec: Record, col: Column): Long {
    match col
    case MinorCol => rec.minor
    case MajorCol => rec.major
    case UtilCol => rec.util
  }

  /** The sum of one column over the records of one pid. */
  function CellSum(recs: seq<Record>, p: Long, col: Column): int {
    if recs == [] then 0 else (if recs[0].pid == p then Cell(recs[0], col) else 0) + CellSum(recs[1..], p, col)
  }

  /** What a column owes to quantities counted per channel: UTIL is five times the CPU time. */
  function Due(minor: nat, major: nat, user: nat, system: nat, col: Column): nat {
    match col
    case MinorCol => minor
    case MajorCol => major
    case UtilCol => 5 * (user + system)
  }

  function CollectedDue(snaps: seq<Snapshot>, p: LivePid, col: Column): nat {
    Due(Collected(snaps, p, Minor), Collected(snaps, p, Major),
        Collected(snaps, p, User), Collected(snaps, p, System), col)
  }

  /** Small enough for the cells, which are longs, and for the product by 100 on the way to UTIL. */
  predicate Fits(minor: nat, major: nat, user: nat, system: nat) {
    minor < TWO_63 && major < TWO_63 && (user + system) * 100 < TWO_63
  }

  predicate CollectedFits(snaps: seq<Snapshot>, p: LivePid) {
    Fits(Collected(snaps, p, Minor), Collected(snaps, p, Major), Collected(snaps, p, User), Collected(snaps, p, System))
  }

  /** As long as the totals fit, the cells of a pid add up to what was collected for it. */
  lemma {:induction false} CellsOfSnapshots(snaps: seq<Snapshot>, p: LivePid, col: Column)
    requires CollectedFits(snaps, p)
    ensures CellSum(AsRecords(snaps), p, col) == CollectedDue(snaps, p, col)
  {
    if snaps != [] {
      CellsOfSnapshots(snaps[1..], p, col);
      assert AsRecords(snaps)[1..] == AsRecords(snaps[1..]);
      if snaps[0].pid == p {
        CellsOfOne(snaps[0]);
      }
    }
  }

  lemma CellsOfOne(snap: Snapshot)
    requires snap.counters.minFlt < TWO_63 && snap.counters.majFlt < TWO_63
    requires (snap.counters.utime + snap.counters.stime) * 100 < TWO_63
    ensures var rec := AsRecord(snap);
            && rec.minor == snap.counters.minFlt && rec.major == snap.counters.majFlt
            && rec.util == 5 * (snap.counters.utime + snap.counters.stime)
  {
    UtilFieldIsFiveTimes(snap.counters.utime + snap.counters.stime);
  }

  /** No sampled record can be taken for an empty cell by its pid. */
  lemma SampledPids(snaps: seq<Snapshot>)
    ensures forall k :: 0 <= k < |snaps| ==> AsRecords(snaps)[k].pid > 0
  {
  }

  // ---------------------------------------------------------------- the work item

  /** A tick samples every listed pid once, in list order, and requeues itself iff all are alive. */
  lemma {:induction false} SampleCovers(s: State, k: nat, now: nat)
    requires k <= |s.tasks| && !s.queued
    ensures var r := SampleFrom(s, k, now);
            && (r.0.queued <==> forall i :: k <= i < |s.tasks| ==> s.tasks[i].pid in s.procs)
            && (r.0.queued ==> |r.1| == |s.tasks| - k)
            && |r.1| <= |s.tasks| - k
            && (forall i :: k <= i < k + |r.1| ==> r.1[i - k].pid == s.tasks[i].pid)
            && r.0.procs.Keys == s.procs.Keys
    decreases |s.tasks| - k
  {
    if k < |s.tasks| && s.tasks[k].pid in s.procs {
      var s' := SampleOne(s, k, now);
      SampleCovers(s', k + 1, now);
      assert s'.procs.Keys == s.procs.Keys;
      assert forall i :: k < i < |s.tasks| ==> s'.tasks[i] == s.tasks[i];
      var r := SampleFrom(s, k, now).1;
      forall i | k < i < k + |r| ensures r[i - k].pid == s.tasks[i].pid {
        assert r[i - k] == SampleFrom(s', k + 1, now).1[i - (k + 1)];
      }
    }
  }

  ghost predicate AllAlive(s: State) {
    forall i :: 0 <= i < |s.tasks| ==> s.tasks[i].pid in s.procs
  }

  /** A tick that meets a dead pid stalls the sampler until the list has been empty. */
  ghost predicate StalledBy(stalled: bool, s: State, e: Event)
    requires Enabled(s, e)
  {
    Step(s, e).0.tasks != [] && (stalled || (e.Tick? && !AllAlive(s)))
  }

  ghost predicate StalledAfter(stalled: bool, s: State, es: seq<Event>)
    requires Legal(s, es)
    decreases |es|
  {
    if es == [] then stalled else StalledAfter(StalledBy(stalled, s, es[0]), Step(s, es[0]).0, es[1..])
  }

  ghost predicate Distinct(ts: seq<Entry>) {
    forall i, j :: 0 <= i < j < |ts| ==> ts[i].pid != ts[j].pid
  }

  /** The listed pids, in list order. */
  function Pids(ts: seq<Entry>): (r: seq<Pid32>)
    ensures |r| == |ts| && forall i :: 0 <= i < |ts| ==> r[i] == ts[i].pid
  {
    seq(|ts|, i requires 0 <= i < |ts| => ts[i].pid)
  }

  function Gone(pids: seq<Pid32>, p: Pid32): seq<Pid32> {
    if pids == [] then []
    else Gone(pids[..|pids| - 1], p) + if pids[|pids| - 1] == p then [] else [pids[|pids| - 1]]
  }

  /** A registration puts an unlisted pid at the end, a deregistration takes it out, nothing else moves anybody. */
  function PidsBy(pids: seq<Pid32>, e: Event): seq<Pid32> {
    match e
    case Register(pid, _) => if pid in pids then pids else pids + [pid]
    case Deregister(pid) => Gone(pids, pid)
    case _ => pids
  }

  /** The list after a run, from the calls alone. */
  function PidsAfter(pids: seq<Pid32>, es: seq<Event>): seq<Pid32>
    decreases |es|
  {
    if es == [] then pids else PidsAfter(PidsBy(pids, es[0]), es[1..])
  }

  lemma {:induction false} SampleKeepsPids(s: State, k: nat, now: nat)
    requires k <= |s.tasks|
    ensures Pids(SampleFrom(s, k, now).0.tasks) == Pids(s.tasks)
    decreases |s.tasks| - k
  {
    if k < |s.tasks| && s.tasks[k].pid in s.procs {
      SampleKeepsPids(SampleOne(s, k, now), k + 1, now);
      assert Pids(SampleOne(s, k, now).tasks) == Pids(s.tasks);
    }
  }

  lemma {:induction false} GoneNone(pids: seq<Pid32>, p: Pid32)
    requires p !in pids
    ensures Gone(pids, p) == pids
  {
    if pids != [] {
      GoneNone(pids[..|pids| - 1], p);
      assert pids == pids[..|pids| - 1] + [pids[|pids| - 1]];
    }
  }

  lemma {:induction false} GoneOne(pids: seq<Pid32>, k: nat)
    requires k < |pids| && forall i :: 0 <= i < |pids| && i != k ==> pids[i] != pids[k]
    ensures Gone(pids, pids[k]) == pids[..k] + pids[k + 1..]
  {
    var n := |pids| - 1;
    if k == n {
      GoneNone(pids[..n], pids[k]);
    } else {
      GoneOne(pids[..n], k);
      assert pids[k + 1..] == pids[..n][k + 1..] + [pids[n]];
    }
  }

  lemma IndexOfListed(ts: seq<Entry>, pid: Pid32)
    ensures IndexOf(ts, pid) >= 0 <==> pid in Pids(ts)
  {
    var k := IndexOf(ts, pid);
    if k >= 0 {
      assert Pids(ts)[k] == pid;
    }
  }

  lemma RemovalMovesPids(ts: seq<Entry>, k: nat)
    requires Distinct(ts) && k < |ts|
    ensures Distinct(ts[..k] + ts[k + 1..])
    ensures Pids(ts[..k] + ts[k + 1..]) == Gone(Pids(ts), ts[k].pid)
  {
    var ts' := ts[..k] + ts[k + 1..];
    GoneOne(Pids(ts), k);
    assert Pids(ts') == Pids(ts)[..k] + Pids(ts)[k + 1..];
    forall j | 0 <= j < |ts'| ensures ts'[j] == ts[if j < k then j else j + 1] {
    }
  }

  lemma DeregisterMovesPids(s: State, pid: Pid32)
    requires Distinct(s.tasks)
    ensures var ts := DeregisterPid(s, pid).tasks; Distinct(ts) && Pids(ts) == Gone(Pids(s.tasks), pid)
  {
    var k := IndexOf(s.tasks, pid);
    if k < 0 {
      IndexOfListed(s.tasks, pid);
      GoneNone(Pids(s.tasks), pid);
    } else {
      RemovalMovesPids(s.tasks, k);
    }
  }

  lemma RegisterMovesPids(s: State, pid: Pid32, now: nat)
    requires Distinct(s.tasks)
    ensures var ts := RegisterPid(s, pid, now).tasks;
            Distinct(ts) && Pids(ts) == if pid in Pids(s.tasks) then Pids(s.tasks) else Pids(s.tasks) + [pid]
  {
    IndexOfListed(s.tasks, pid);
  }

  lemma StepMovesPids(s: State, e: Event)
    requires Enabled(s, e) && Distinct(s.tasks)
    ensures Distinct(Step(s, e).0.tasks) && Pids(Step(s, e).0.tasks) == PidsBy(Pids(s.tasks), e)
  {
    match e
    case Register(pid, now) => RegisterMovesPids(s, pid, now);
    case Deregister(pid) => DeregisterMovesPids(s, pid);
    case Tick(now) =>
      SampleKeepsPids(s.(queued := false), 0, now);
      var ts' := Step(s, e).0.tasks;
      forall i | 0 <= i < |ts'| ensures ts'[i].pid == s.tasks[i].pid {
        assert Pids(ts')[i] == Pids(s.tasks)[i];
      }
    case _ =>
  }

  /** The work item is queued exactly while somebody is listed and the sampler has not stalled. */
  ghost predicate QueueExact(s: State, stalled: bool) {
    s.queued <==> s.tasks != [] && !stalled
  }

  lemma StepKeepsQueue(s: State, stalled: bool, e: Event)
    requires Enabled(s, e) && QueueExact(s, stalled) && (stalled ==> s.tasks != [])
    ensures QueueExact(Step(s, e).0, StalledBy(stalled, s, e))
  {
    if e.Tick? {
      SampleKeepsPids(s.(queued := false), 0, e.now);
      assert |Pids(Step(s, e).0.tasks)| == |Pids(s.tasks)|;
      SampleCovers(s.(queued := false), 0, e.now);
    }
  }

  /**
  Over every run: the list holds, in order, what the calls say, no pid twice; and the sampler is queued
  if and only if somebody is listed and no tick has met a dead process since the list was last empty.
  */
  lemma {:induction false} RunKeepsList(s: State, stalled: bool, es: seq<Event>)
    requires Legal(s, es) && Distinct(s.tasks) && QueueExact(s, stalled) && (stalled ==> s.tasks != [])
    ensures var s' := Exec(s, es).0;
            && Distinct(s'.tasks) && Pids(s'.tasks) == PidsAfter(Pids(s.tasks), es)
            && QueueExact(s', StalledAfter(stalled, s, es))
    decreases |es|
  {
    if es != [] {
      StepMovesPids(s, es[0]);
      StepKeepsQueue(s, stalled, es[0]);
      RunKeepsList(Step(s, es[0]).0, StalledBy(stalled, s, es[0]), es[1..]);
    }
  }

  lemma TickCovers(s: State, now: nat)
    ensures var r := TickOnce(s, now);
            && (r.0.queued <==> AllAlive(s))
            && (r.0.queued ==> |r.1| == |s.tasks|)
            && |r.1| <= |s.tasks|
            && (forall i :: 0 <= i < |r.1| ==> r.1[i].pid == s.tasks[i].pid)
  {
    SampleCovers(s.(queued := false), 0, now);
    var out := TickOnce(s, now).1;
    forall i | 0 <= i < |out| ensures out[i].pid == s.tasks[i].pid {
      assert out[i - 0].pid == s.tasks[i].pid;
    }
  }
}
