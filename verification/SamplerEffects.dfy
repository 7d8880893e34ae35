/**
What each event of MP3 does, field by field. The results about whole runs of the sampler say where the
counts go; these say what a tick reads, reports and clears, and what it leaves alone.
*/
module SamplerEffects {
  import opened Words
  import opened Ring
  import opened Sampler

  // ---------------------------------------------------------------- the list

  /** A pid that is not listed goes to the end, with this jiffy and nothing read yet; the first one starts the sampler. */
  lemma RegisterExactly(s: State, pid: Pid32, now: nat)
    ensures var s', n := RegisterPid(s, pid, now), |s.tasks|;
            if pid in Pids(s.tasks) then s' == s
            else
              && |s'.tasks| == n + 1 && s.tasks <= s'.tasks
              && s'.tasks[n].pid == pid && s'.tasks[n].lastJiffies == now && s'.tasks[n].last == Counters(0, 0, 0, 0)
              && s'.procs == s.procs
              && (s'.queued <==> s.queued || n == 0)
  {
    IndexOfListed(s.tasks, pid);
  }

  /** The first entry of a pid goes; the last one to go stops the sampler. */
  lemma DeregisterExactly(s: State, pid: Pid32, k: nat)
    requires k < |s.tasks| && s.tasks[k].pid == pid && forall i :: 0 <= i < k ==> s.tasks[i].pid != pid
    ensures var s' := DeregisterPid(s, pid);
            && s'.tasks == s.tasks[..k] + s.tasks[k + 1..]
            && s'.procs == s.procs
            && (s'.queued <==> s.queued && |s.tasks| > 1)
  {
    assert IndexOf(s.tasks, pid) == k;
  }

  lemma UnknownDeregister(s: State, pid: Pid32)
    requires pid !in Pids(s.tasks)
    ensures DeregisterPid(s, pid) == s
  {
    IndexOfListed(s.tasks, pid);
  }

  // ---------------------------------------------------------------- processes

  /** What happens to processes touches no list entry and no work item, and only the process it happens to. */
  lemma ProcessExactly(s: State, e: Event)
    requires Enabled(s, e) && (e.Spawn? || e.Exit? || e.Accrue?)
    ensures var s' := Step(s, e).0;
            && s'.tasks == s.tasks && s'.queued == s.queued && Step(s, e).1 == []
            && (forall p :: p in s'.procs <==> (p in s.procs && e != Exit(p)) || e == Spawn(p))
            && (forall p :: p in s'.procs && p != e.pid ==> s'.procs[p] == s.procs[p])
            && (e.Spawn? ==> s'.procs[e.pid] == Counters(0, 0, 0, 0))
            && (e.Accrue? ==> forall ch ::
                  Value(s'.procs[e.pid], ch) == (Value(s.procs[e.pid], ch) + if ch == e.ch then 1 else 0) % TWO_64)
  {
  }

  // ---------------------------------------------------------------- the tick

  /** The entries in front of n are alive, and n is the first dead one or the end of the list. */
  ghost predicate AliveUpTo(s: State, k: nat, n: nat) {
    && k <= n <= |s.tasks|
    && (forall i :: k <= i < n ==> s.tasks[i].pid in s.procs)
    && (n < |s.tasks| ==> s.tasks[n].pid !in s.procs)
  }

  ghost predicate ReadBy(ts: seq<Entry>, k: nat, n: nat, p: Pid32)
    requires k <= n <= |ts|
  {
    exists i :: k <= i < n && ts[i].pid == p
  }

  /** One snapshot per entry, with the counters as they were. */
  ghost predicate Reports(s: State, k: nat, n: nat, out: seq<Snapshot>)
    requires AliveUpTo(s, k, n)
  {
    && |out| == n - k
    && forall i :: k <= i < n ==> out[i - k].pid == s.tasks[i].pid && out[i - k].counters == s.procs[s.tasks[i].pid]
  }

  /** The counters that were read are cleared, no other. */
  ghost predicate Clears(s: State, k: nat, n: nat, procs': map<LivePid, Counters>)
    requires AliveUpTo(s, k, n)
  {
    && procs'.Keys == s.procs.Keys
    && forall p :: p in s.procs ==>
         procs'[p] == if ReadBy(s.tasks, k, n, p) then Counters(0, 0, 0, 0) else s.procs[p]
  }

  /** The entries that were read note the jiffy and the counters, no other entry changes. */
  ghost predicate Notes(s: State, k: nat, n: nat, now: nat, ts': seq<Entry>)
    requires AliveUpTo(s, k, n)
  {
    && |ts'| == |s.tasks|
    && (forall i :: k <= i < n ==> ts'[i] == Entry(s.tasks[i].pid, now, s.procs[s.tasks[i].pid]))
    && (forall i :: 0 <= i < |ts'| && !(k <= i < n) ==> ts'[i] == s.tasks[i])
  }

  lemma FirstOf(s: State, k: nat, n: nat, now: nat)
    requires AliveUpTo(s, k, n) && k < n && Distinct(s.tasks)
    ensures var next := SampleOne(s, k, now);
            && Distinct(next.tasks) && AliveUpTo(next, k + 1, n)
            && forall i :: k < i < n ==>
                 next.tasks[i] == s.tasks[i] && next.procs[s.tasks[i].pid] == s.procs[s.tasks[i].pid]
  {
    var next := SampleOne(s, k, now);
    assert next.procs.Keys == s.procs.Keys;
    forall i | 0 <= i < |s.tasks| ensures next.tasks[i].pid == s.tasks[i].pid {
    }
  }

  lemma ReportsCons(s: State, k: nat, n: nat, now: nat, rest: seq<Snapshot>)
    requires AliveUpTo(s, k, n) && k < n && Distinct(s.tasks)
    requires AliveUpTo(SampleOne(s, k, now), k + 1, n) && Reports(SampleOne(s, k, now), k + 1, n, rest)
    ensures Reports(s, k, n, [Snapshot(s.tasks[k].pid, s.procs[s.tasks[k].pid])] + rest)
  {
    FirstOf(s, k, n, now);
    var out := [Snapshot(s.tasks[k].pid, s.procs[s.tasks[k].pid])] + rest;
    forall i | k < i < n ensures out[i - k].pid == s.tasks[i].pid && out[i - k].counters == s.procs[s.tasks[i].pid] {
      assert out[i - k] == rest[i - (k + 1)];
    }
  }

  lemma ClearsCons(s: State, k: nat, n: nat, now: nat, procs': map<LivePid, Counters>)
    requires AliveUpTo(s, k, n) && k < n && Distinct(s.tasks)
    requires AliveUpTo(SampleOne(s, k, now), k + 1, n) && Clears(SampleOne(s, k, now), k + 1, n, procs')
    ensures Clears(s, k, n, procs')
  {
    FirstOf(s, k, n, now);
    var next := SampleOne(s, k, now);
    forall p | p in s.procs
      ensures ReadBy(s.tasks, k, n, p) <==> p == s.tasks[k].pid || ReadBy(next.tasks, k + 1, n, p)
    {
      ReadByCons(s, k, n, now, p);
    }
    assert next.procs.Keys == s.procs.Keys;
  }

  lemma ReadByCons(s: State, k: nat, n: nat, now: nat, p: Pid32)
    requires AliveUpTo(s, k, n) && k < n && Distinct(s.tasks)
    ensures ReadBy(s.tasks, k, n, p) <==> p == s.tasks[k].pid || ReadBy(SampleOne(s, k, now).tasks, k + 1, n, p)
  {
    FirstOf(s, k, n, now);
    var ts := SampleOne(s, k, now).tasks;
    if ReadBy(s.tasks, k, n, p) {
      var i :| k <= i < n && s.tasks[i].pid == p;
      assert i > k ==> ts[i].pid == p;
    }
    if ReadBy(ts, k + 1, n, p) {
      var i :| k + 1 <= i < n && ts[i].pid == p;
      assert s.tasks[i].pid == p;
    }
  }

  lemma {:induction false} SampleExactly(s: State, k: nat, n: nat, now: nat)
    requires AliveUpTo(s, k, n) && Distinct(s.tasks)
    ensures var r := SampleFrom(s, k, now);
            && Reports(s, k, n, r.1) && Clears(s, k, n, r.0.procs) && Notes(s, k, n, now, r.0.tasks)
            && (r.0.queued <==> s.queued || n == |s.tasks|)
    decreases n - k
  {
    if k < n {
      FirstOf(s, k, n, now);
      var next := SampleOne(s, k, now);
      SampleExactly(next, k + 1, n, now);
      ReportsCons(s, k, n, now, SampleFrom(next, k + 1, now).1);
      ClearsCons(s, k, n, now, SampleFrom(next, k + 1, now).0.procs);
    }
  }

  /**
  A tick. With n the place of the first dead pid, or the length of the list: it reports exactly the n
  entries in front of it, each with its counters as they were, clears exactly those counters, notes them
  and the jiffy in exactly those entries, and is queued again if and only if nobody is dead.
  */
  lemma TickExactly(s: State, n: nat, now: nat)
    requires AliveUpTo(s, 0, n) && Distinct(s.tasks)
    ensures var r := TickOnce(s, now);
            && Reports(s, 0, n, r.1) && Clears(s, 0, n, r.0.procs) && Notes(s, 0, n, now, r.0.tasks)
            && (r.0.queued <==> n == |s.tasks|)
  {
    SampleExactly(s.(queued := false), 0, n, now);
  }

  // ---------------------------------------------------------------- the records

  /** `cell` is the 64-bit word `x` read as a signed number. */
  predicate SameBits(cell: Long, x: Word64) {
    cell == x || cell == x - TWO_64
  }

  /** `q` is `p / 20` as C divides, the fraction dropped on either side of zero. */
  predicate IsQuotient20(p: int, q: int) {
    if p >= 0 then 20 * q <= p < 20 * q + 20 else 20 * q - 20 < p <= 20 * q
  }

  /** The record of a snapshot, for every value of the counters; the product by 100 wraps as a long. */
  lemma RecordExactly(snap: Snapshot, product: Long)
    requires (product - 100 * (snap.counters.utime + snap.counters.stime)) % TWO_64 == 0
    ensures var rec := AsRecord(snap);
            && rec.pid == snap.pid
            && SameBits(rec.minor, snap.counters.minFlt) && SameBits(rec.major, snap.counters.majFlt)
            && IsQuotient20(product, rec.util)
  {
    var cpu := (snap.counters.utime + snap.counters.stime) % TWO_64;
    LongProduct(cpu, snap.counters.utime + snap.counters.stime, product);
  }

  lemma LongProduct(cpu: Word64, sum: nat, product: Long)
    requires cpu == sum % TWO_64 && (product - 100 * sum) % TWO_64 == 0
    ensures WrapLong(ToLong(cpu) * 100) == product
  {
    var a, b := sum / TWO_64, (product - 100 * sum) / TWO_64;
    assert sum == a * TWO_64 + cpu;
    var c := if cpu < TWO_63 then 0 else 1;
    assert ToLong(cpu) == cpu - c * TWO_64;
    assert ToLong(cpu) * 100 == product - (b + 100 * a + 100 * c) * TWO_64;
    LongIsUnique(ToLong(cpu) * 100, product, b + 100 * a + 100 * c);
  }

  lemma LongIsUnique(x: int, y: Long, m: int)
    requires x == y - m * TWO_64
    ensures WrapLong(x) == y
  {
    assert x + TWO_63 == (y + TWO_63) + (-m) * TWO_64;
    assert 0 <= y + TWO_63 < TWO_64;
  }
}
