/**
Can one pid be listed twice? Registration checks for a duplicate in one section and appends in a
later one, so the answer depends on the calls in between. Here is the condition on those calls, over
whole runs, and the converse: once two registrations of a pid are under way, nothing stops them.
*/
module Duplicates {
  import opened Words
  import opened Scheduler
  import opened Admission
  import opened Overlap
  import opened Runs

  // ---------------------------------------------------------------- the condition

  ghost predicate InFlight(fs: seq<Flight>, p: Pid) {
    exists k :: 0 <= k < |fs| && fs[k].pid == p
  }

  ghost predicate FlightsDistinct(fs: seq<Flight>) {
    forall i, j :: 0 <= i < j < |fs| ==> fs[i].pid != fs[j].pid
  }

  /** No pid is listed twice, on its way twice, or on its way while listed. */
  ghost predicate Clean(s: SplitState) {
    && PidsUnique(s.base.tasks)
    && FlightsDistinct(s.flights)
    && forall k :: 0 <= k < |s.flights| ==> !HasPid(s.base.tasks, s.flights[k].pid)
  }

  /**
  The condition on a call: no registration of a pid starts, and none goes through as a whole, while
  another registration of that pid is under way.
  */
  ghost predicate Guarded(s: SplitState, e: SplitEvent) {
    && (e.Check? ==> !InFlight(s.flights, e.pid))
    && (e.Whole? && e.e.Register? && Admissible(s.base.util, e.e.period, e.e.procTime) ==>
          !InFlight(s.flights, e.e.pid))
  }

  lemma CheckClean(s: SplitState, pid: Pid, period: Period, procTime: Word64, msecs: nat -> nat)
    requires Sound(s.base) && Clean(s)
    ensures Clean(SplitStep(s, Check(pid, period, procTime), msecs)) <==> !InFlight(s.flights, pid)
  {
    var f := Checked(pid, period, procTime);
    if InFlight(s.flights, pid) {
      var k :| 0 <= k < |s.flights| && s.flights[k].pid == pid;
      assert !HasPid(s.base.tasks, pid);
      assert FirstIndex(s.base.tasks, pid) < 0;
      var flights := s.flights + [f];
      assert flights[k].pid == flights[|s.flights|].pid;
    }
  }

  lemma WithoutMember(fs: seq<Flight>, k: nat, i: nat)
    requires k < |fs| && i < |fs| - 1
    ensures Without(fs, k)[i] == fs[if i < k then i else i + 1]
  {
  }

  lemma WithoutDistinct(fs: seq<Flight>, k: nat)
    requires k < |fs| && FlightsDistinct(fs)
    ensures FlightsDistinct(Without(fs, k))
    ensures forall f <- Without(fs, k) :: f in fs && f.pid != fs[k].pid
  {
    forall i | 0 <= i < |fs| - 1 ensures Without(fs, k)[i] == fs[if i < k then i else i + 1] {
      WithoutMember(fs, k, i);
    }
  }

  lemma AdmitClean(s: SplitState, k: nat, msecs: nat -> nat)
    requires Sound(s.base) && SplitEnabled(s, Admit(k)) && Clean(s)
    ensures Clean(SplitStep(s, Admit(k), msecs))
  {
    WithoutDistinct(s.flights, k);
  }

  lemma AppendClean(s: SplitState, k: nat, addr: nat, msecs: nat -> nat)
    requires Sound(s.base) && SplitEnabled(s, Append(k, addr)) && Clean(s)
    ensures Clean(SplitStep(s, Append(k, addr), msecs))
  {
    var f := s.flights[k];
    var s' := SplitStep(s, Append(k, addr), msecs);
    WithoutDistinct(s.flights, k);
    forall i | 0 <= i < |s'.flights| ensures !HasPid(s'.base.tasks, s'.flights[i].pid) {
      var g := s'.flights[i];
      assert g in s.flights && g.pid != f.pid;
      assert !HasPid(s.base.tasks, g.pid);
    }
  }

  lemma RegisterClean(s: SplitState, w: Event, msecs: nat -> nat)
    requires Sound(s.base) && Enabled(s.base, w) && w.Register? && Clean(s)
    ensures Clean(SplitStep(s, Whole(w), msecs)) <==> Guarded(s, Whole(w))
  {
    var s' := SplitStep(s, Whole(w), msecs);
    var ts, ts' := s.base.tasks, s'.base.tasks;
    PidsKept(s.base, w, msecs);
    if s' != s {
      assert forall i :: 0 <= i < |ts| ==> ts'[i] == ts[i];
      assert ts'[|ts|].pid == w.pid;
    }
    if InFlight(s.flights, w.pid) && Admissible(s.base.util, w.period, w.procTime) {
      var k :| 0 <= k < |s.flights| && s.flights[k].pid == w.pid;
      assert !HasPid(ts, w.pid);
      assert HasPid(ts', s.flights[k].pid);
    }
  }

  lemma OtherClean(s: SplitState, w: Event, msecs: nat -> nat)
    requires Sound(s.base) && Enabled(s.base, w) && !w.Register? && Clean(s)
    ensures Clean(SplitStep(s, Whole(w), msecs))
  {
    PidsKept(s.base, w, msecs);
    var ts' := Step(s.base, w, msecs).tasks;
    forall p | HasPid(ts', p) ensures HasPid(s.base.tasks, p) {
      NoNewPid(s.base, w, msecs, p);
    }
  }

  lemma NoNewPid(s: State, w: Event, msecs: nat -> nat, p: Pid)
    requires Sound(s) && Enabled(s, w) && !w.Register? && HasPid(Step(s, w, msecs).tasks, p)
    ensures HasPid(s.tasks, p)
  {
    var ts' := Step(s, w, msecs).tasks;
    var i :| 0 <= i < |ts'| && ts'[i].pid == p;
    if w.Deregister? {
      var k := FirstIndex(s.tasks, w.pid);
      assert s.tasks[if k < 0 || i < k then i else i + 1].pid == p;
    } else {
      OthersKeepTasks(s, w, msecs);
      assert s.tasks[i].pid == p;
    }
  }

  /** One step: a clean state stays clean if and only if the step is guarded. */
  lemma CleanExactly(s: SplitState, e: SplitEvent, msecs: nat -> nat)
    requires Sound(s.base) && SplitEnabled(s, e) && Clean(s)
    ensures Clean(SplitStep(s, e, msecs)) <==> Guarded(s, e)
  {
    match e
    case Check(pid, period, procTime) => CheckClean(s, pid, period, procTime, msecs);
    case Admit(k) => AdmitClean(s, k, msecs);
    case Append(k, addr) => AppendClean(s, k, addr, msecs);
    case Whole(w) =>
      if w.Register? {
        RegisterClean(s, w, msecs);
      } else {
        OtherClean(s, w, msecs);
      }
  }

  /** The same with the admission test apart from its update. */
  lemma FineCleanExactly(s: SplitState, e: FineEvent, msecs: nat -> nat)
    requires Sound(s.base) && FineEnabled(s, e) && Clean(s)
    ensures Clean(FineStep(s, e, msecs)) <==> (e.Split? ==> Guarded(s, e.e))
  {
    match e
    case Test(k) => WithoutDistinct(s.flights, k);
    case Update(k) =>
    case Split(split) => CleanExactly(s, split, msecs);
  }

  ghost predicate GuardedRun(s: SplitState, es: seq<FineEvent>, msecs: nat -> nat)
    requires Sound(s.base) && FineLegal(s, es, msecs)
    decreases |es|
  {
    es == [] || ((es[0].Split? ==> Guarded(s, es[0].e)) && GuardedRun(FineStep(s, es[0], msecs), es[1..], msecs))
  }

  lemma {:induction false} GuardedStaysClean(s: SplitState, es: seq<FineEvent>, msecs: nat -> nat)
    requires Sound(s.base) && FineLegal(s, es, msecs) && Clean(s) && GuardedRun(s, es, msecs)
    ensures Clean(FineExec(s, es, msecs))
    decreases |es|
  {
    if es != [] {
      FineCleanExactly(s, es[0], msecs);
      GuardedStaysClean(FineStep(s, es[0], msecs), es[1..], msecs);
    }
  }

  /**
  Whole runs. From loading the module, if no registration of a pid starts or goes through while
  another one of that pid is under way, no pid is ever listed twice, however the sections interleave.
  */
  lemma GuardedRunsUnique(now: nat, es: seq<FineEvent>, msecs: nat -> nat)
    requires FineLegal(SplitState(Boot(now), []), es, msecs)
    requires GuardedRun(SplitState(Boot(now), []), es, msecs)
    ensures PidsUnique(FineExec(SplitState(Boot(now), []), es, msecs).base.tasks)
  {
    GuardedStaysClean(SplitState(Boot(now), []), es, msecs);
  }

  // ---------------------------------------------------------------- the converse

  /** Registrations under way go on, and nothing else happens. */
  predicate GoesOn(e: FineEvent) {
    e.Test? || e.Update? || (e.Split? && e.e.Append?)
  }

  /** Such a run from `s` that ends with some pid listed twice. */
  ghost predicate Doubles(s: SplitState, es: seq<FineEvent>, msecs: nat -> nat)
    requires Sound(s.base)
  {
    && (forall e <- es :: GoesOn(e))
    && FineLegal(s, es, msecs) && !PidsUnique(FineExec(s, es, msecs).base.tasks)
  }

  lemma DoublesBefore(s: SplitState, e: FineEvent, es: seq<FineEvent>, msecs: nat -> nat)
    requires Sound(s.base) && FineEnabled(s, e) && GoesOn(e) && Doubles(FineStep(s, e, msecs), es, msecs)
    ensures Doubles(s, [e] + es, msecs)
  {
    FineCons(s, e, es, msecs);
  }

  /** The one thing that can turn a flight away: it is still to be tested and does not fit. */
  ghost predicate Passes(s: SplitState, k: nat) {
    k < |s.flights| && (s.flights[k].Checked? ==> Admissible(s.base.util, s.flights[k].period, s.flights[k].procTime))
  }

  /** Flight k once it has its test behind it. */
  function PastTest(f: Flight): Flight {
    if f.Checked? then Tested(f.pid, f.period, f.procTime) else f
  }

  ghost function Past(s: SplitState, k: nat): SplitState
    requires k < |s.flights|
  {
    s.(flights := s.flights[k := PastTest(s.flights[k])])
  }

  lemma PastDoubles(s: SplitState, k: nat, rest: seq<FineEvent>, msecs: nat -> nat) returns (es: seq<FineEvent>)
    requires Sound(s.base) && Passes(s, k) && Doubles(Past(s, k), rest, msecs)
    ensures Doubles(s, es, msecs)
  {
    if s.flights[k].Checked? {
      DoublesBefore(s, Test(k), rest, msecs);
      es := [Test(k)] + rest;
    } else {
      assert Past(s, k) == s;
      es := rest;
    }
  }

  /** Flight k, past its test, adds its share if it has not yet, and is listed. */
  ghost function Landed(s: SplitState, k: nat, addr: nat): SplitState
    requires k < |s.flights|
  {
    var f := s.flights[k];
    SplitState(s.base.(util := if f.Admitted? then s.base.util else Add64(s.base.util, Share(f)),
                       tasks := s.base.tasks + [NewTask(addr, f.pid, f.period, f.procTime)]),
               Without(s.flights, k))
  }

  lemma LandedSound(s: SplitState, k: nat, addr: nat)
    requires Sound(s.base) && k < |s.flights| && !HasAddr(s.base.tasks, addr)
    ensures Sound(Landed(s, k, addr).base)
  {
    var f := s.flights[k];
    AppendSound(s.base, NewTask(addr, f.pid, f.period, f.procTime), Landed(s, k, addr).base);
  }

  lemma LandedDoubles(s: SplitState, k: nat, addr: nat, rest: seq<FineEvent>, msecs: nat -> nat)
    returns (es: seq<FineEvent>)
    requires Sound(s.base) && k < |s.flights| && !s.flights[k].Checked? && !HasAddr(s.base.tasks, addr)
    requires Sound(Landed(s, k, addr).base) && Doubles(Landed(s, k, addr), rest, msecs)
    ensures Doubles(s, es, msecs)
  {
    var append := Split(Append(k, addr));
    if s.flights[k].Admitted? {
      assert FineStep(s, append, msecs) == Landed(s, k, addr);
      DoublesBefore(s, append, rest, msecs);
      es := [append] + rest;
    } else {
      var added := FineStep(s, Update(k), msecs);
      assert Without(added.flights, k) == Without(s.flights, k);
      assert FineStep(added, append, msecs) == Landed(s, k, addr);
      DoublesBefore(added, append, rest, msecs);
      DoublesBefore(s, Update(k), [append] + rest, msecs);
      es := [Update(k)] + ([append] + rest);
    }
  }

  lemma {:induction false} FreshAddr(ts: seq<Task>) returns (a: nat)
    ensures forall t <- ts :: t.addr < a
  {
    if ts == [] {
      a := 0;
    } else {
      a := FreshAddr(ts[..|ts| - 1]);
      var last := ts[|ts| - 1];
      assert forall t <- ts :: t in ts[..|ts| - 1] || t == last;
      a := if a > last.addr then a else last.addr + 1;
    }
  }

  lemma ListedTwice(s: SplitState, k: nat, addr: nat, msecs: nat -> nat)
    requires Sound(s.base) && k < |s.flights| && !HasAddr(s.base.tasks, addr)
    requires HasPid(s.base.tasks, s.flights[k].pid)
    ensures Sound(Landed(s, k, addr).base) && Doubles(Landed(s, k, addr), [], msecs)
  {
    LandedSound(s, k, addr);
    var ts := Landed(s, k, addr).base.tasks;
    var i :| 0 <= i < |s.base.tasks| && s.base.tasks[i].pid == s.flights[k].pid;
    assert ts[i].pid == ts[|s.base.tasks|].pid;
  }

  /** A flight of a listed pid that passes, or has passed, its test lists the pid twice. */
  lemma ListedFlightDoubles(s: SplitState, k: nat, msecs: nat -> nat) returns (es: seq<FineEvent>)
    requires Sound(s.base) && Passes(s, k) && HasPid(s.base.tasks, s.flights[k].pid)
    ensures Doubles(s, es, msecs)
  {
    var addr := FreshAddr(s.base.tasks);
    ListedTwice(Past(s, k), k, addr, msecs);
    es := LandedDoubles(Past(s, k), k, addr, [], msecs);
    es := PastDoubles(s, k, es, msecs);
  }

  lemma OtherFlightListed(s: SplitState, i: nat, j: nat, addr: nat)
    requires i < j < |s.flights| && s.flights[i].pid == s.flights[j].pid && !s.flights[j].Checked?
    ensures var landed := Landed(s, i, addr);
            Passes(landed, j - 1) && HasPid(landed.base.tasks, landed.flights[j - 1].pid)
  {
    WithoutMember(s.flights, i, j - 1);
    assert Landed(s, i, addr).base.tasks[|s.base.tasks|].pid == s.flights[j].pid;
  }

  /** Two flights of one pid that each pass, or have passed, their test list the pid twice. */
  lemma SharedFlightsDouble(s: SplitState, i: nat, j: nat, msecs: nat -> nat) returns (es: seq<FineEvent>)
    requires Sound(s.base) && Passes(s, i) && Passes(s, j) && i < j && s.flights[i].pid == s.flights[j].pid
    ensures Doubles(s, es, msecs)
  {
    var one := Past(s, i);
    var both := Past(one, j);
    var addr := FreshAddr(s.base.tasks);
    LandedSound(both, i, addr);
    OtherFlightListed(both, i, j, addr);
    es := ListedFlightDoubles(Landed(both, i, addr), j - 1, msecs);
    es := LandedDoubles(both, i, addr, es, msecs);
    es := PastDoubles(one, j, es, msecs);
    es := PastDoubles(s, i, es, msecs);
  }

  /** From loading the module: two registrations of one pid, both checked before either is appended. */
  lemma DuplicatePid(msecs: nat -> nat) returns (es: seq<FineEvent>)
    ensures FineLegal(SplitState(Boot(1), []), es, msecs)
    ensures !PidsUnique(FineExec(SplitState(Boot(1), []), es, msecs).base.tasks)
  {
    var f, check := Checked(1, 1000, 1), Split(Check(1, 1000, 1));
    var s0, s1, s2 := SplitState(Boot(1), []), SplitState(Boot(1), [f]), SplitState(Boot(1), [f, f]);
    assert Share(f) == 1048;
    es := SharedFlightsDouble(s2, 0, 1, msecs);
    assert FineStep(s1, check, msecs) == s2;
    FineCons(s1, check, es, msecs);
    es := [check] + es;
    assert FineStep(s0, check, msecs) == s1;
    FineCons(s0, check, es, msecs);
    es := [check] + es;
  }
}
