/**
The invariants of the scheduler when registrations interleave with everything else. Whatever falls
between the sections of a registration, and whether or not the admission limit holds, the task list,
`ct`, the timers and the deadlines stay as they are with whole calls, as long as no two registrations
of one pid are under way together.
*/
module Interleaved {
  import opened Words
  import opened Scheduler
  import opened Admission
  import opened Overlap
  import opened Runs
  import opened Duplicates
  import opened Effects
  import opened Deadlines

  // ---------------------------------------------------------------- one step

  lemma AppendKeepsOrder(s: SplitState, k: nat, addr: nat, msecs: nat -> nat)
    requires SplitEnabled(s, Append(k, addr)) && Clean(s) && Orderly(s.base)
    ensures Orderly(SplitStep(s, Append(k, addr), msecs).base)
  {
    AppendClean(s, k, addr, msecs);
    var ts, ts' := s.base.tasks, SplitStep(s, Append(k, addr), msecs).base.tasks;
    assert addr !in s.base.timers && s.base.ct != Some(addr);
    assert forall i :: 0 <= i < |ts| ==> ts'[i] == ts[i];
  }

  lemma FineKeepsOrder(s: SplitState, e: FineEvent, msecs: nat -> nat)
    requires Clean(s) && Orderly(s.base) && FineEnabled(s, e) && (e.Split? ==> Guarded(s, e.e))
    ensures Clean(FineStep(s, e, msecs)) && Orderly(FineStep(s, e, msecs).base)
  {
    FineCleanExactly(s, e, msecs);
    match e
    case Split(Append(k, addr)) => AppendKeepsOrder(s, k, addr, msecs);
    case Split(Whole(w)) => StepKeepsOrder(s.base, w, msecs);
    case _ =>
  }

  /** The book of an interleaved run: an append enters the flight it lists. */
  ghost function FineBookStep(b: Book, s: SplitState, e: FineEvent, msecs: nat -> nat): Book
    requires FineEnabled(s, e)
  {
    match e
    case Split(Append(k, addr)) =>
      b + [Line(addr, s.flights[k].pid, s.flights[k].period, s.flights[k].procTime, 0, 0, 0)]
    case Split(Whole(w)) => BookStep(b, s.base.now, w, GoesThrough(s.base, w), msecs)
    case _ => b
  }

  ghost function FineBookAfter(b: Book, s: SplitState, es: seq<FineEvent>, msecs: nat -> nat): Book
    requires Sound(s.base) && FineLegal(s, es, msecs)
    decreases |es|
  {
    if es == [] then b
    else FineBookAfter(FineBookStep(b, s, es[0], msecs), FineStep(s, es[0], msecs), es[1..], msecs)
  }

  lemma SectionByTheBook(s: SplitState, b: Book, k: nat, addr: nat, msecs: nat -> nat)
    requires SplitEnabled(s, Append(k, addr)) && Sound(s.base) && ByTheBook(s.base, b, msecs)
    ensures var f := s.flights[k];
            ByTheBook(SplitStep(s, Append(k, addr), msecs).base,
                      b + [Line(addr, f.pid, f.period, f.procTime, 0, 0, 0)], msecs)
  {
    var f := s.flights[k];
    AppendExactly(s, k, addr, msecs);
    AppendOnSchedule(s.base, b, SplitStep(s, Append(k, addr), msecs).base,
                     Line(addr, f.pid, f.period, f.procTime, 0, 0, 0), msecs);
  }

  lemma FineByTheBook(s: SplitState, b: Book, e: FineEvent, msecs: nat -> nat)
    requires Orderly(s.base) && ByTheBook(s.base, b, msecs) && FineEnabled(s, e)
    ensures ByTheBook(FineStep(s, e, msecs).base, FineBookStep(b, s, e, msecs), msecs)
  {
    match e
    case Split(Append(k, addr)) => SectionByTheBook(s, b, k, addr, msecs);
    case Split(Whole(w)) => StepOnSchedule(s.base, b, w, msecs);
    case _ =>
  }

  // ---------------------------------------------------------------- whole runs

  lemma {:induction false} GuardedRunOrderly(s: SplitState, b: Book, es: seq<FineEvent>, msecs: nat -> nat)
    requires Clean(s) && Orderly(s.base) && ByTheBook(s.base, b, msecs)
    requires FineLegal(s, es, msecs) && GuardedRun(s, es, msecs)
    ensures Orderly(FineExec(s, es, msecs).base)
    ensures ByTheBook(FineExec(s, es, msecs).base, FineBookAfter(b, s, es, msecs), msecs)
    decreases |es|
  {
    if es != [] {
      FineKeepsOrder(s, es[0], msecs);
      FineByTheBook(s, b, es[0], msecs);
      GuardedRunOrderly(FineStep(s, es[0], msecs), FineBookStep(b, s, es[0], msecs), es[1..], msecs);
    }
  }

  /**
  From loading the module, over every run in which no registration of a pid starts or goes through
  while another one of it is under way: pids are unique, `ct` is awake, a timer is pending exactly for
  the sleeping tasks that have yielded, the order is rate-monotonic unless a wake-up is pending, and
  list, deadlines and timers are what the book of the run says.
  */
  lemma InterleavedNoDrift(now: nat, es: seq<FineEvent>, msecs: nat -> nat)
    requires now > 0 && FineLegal(SplitState(Boot(now), []), es, msecs)
    requires GuardedRun(SplitState(Boot(now), []), es, msecs)
    ensures var s := FineExec(SplitState(Boot(now), []), es, msecs).base;
            && Orderly(s)
            && ByTheBook(s, FineBookAfter([], SplitState(Boot(now), []), es, msecs), msecs)
  {
    GuardedRunOrderly(SplitState(Boot(now), []), [], es, msecs);
  }
}
