/**
The dispatching thread with its gaps. `wake_up_process` does nothing to a thread that is already
awake, so a wake-up that arrives between the thread's own wake-up and its next sleep is lost. Here a
dispatch is three steps with any calls in between: select the highest READY task, act on it, rest.
Registrations come in their sections as well, so this is the machine with every interleaving in it.
*/
module Wakeups {
  import opened Words
  import opened Scheduler
  import opened Admission
  import opened Overlap
  import opened Runs
  import opened Effects
  import opened Priority

  // ---------------------------------------------------------------- the machine

  datatype Phase = Resting | Selected(highest: Option<nat>) | Acted

  datatype ThreadState = ThreadState(base: State, flights: seq<Flight>, phase: Phase)

  /** A `Section` is a step of a registration that does not run as a whole. */
  datatype ThreadEvent = Select | Act | Rest | Call(e: Event) | Section(part: FineEvent)

  ghost predicate Listed(ts: seq<Task>, a: Option<nat>) {
    a.Some? ==> HasAddr(ts, a.value)
  }

  /** No dangling pointer, the selection included. */
  ghost predicate ThreadSound(s: ThreadState) {
    Sound(s.base) && (s.phase.Selected? ==> Listed(s.base.tasks, s.phase.highest))
  }

  function HighestAddr(s: State): (a: Option<nat>)
    ensures Listed(s.tasks, a)
  {
    var h := Highest(s.tasks);
    assert h >= 0 ==> HasAddr(s.tasks, s.tasks[h].addr);
    if h < 0 then None else Some(s.tasks[h].addr)
  }

  function TaskAt(ts: seq<Task>, a: Option<nat>): Option<Task>
    requires Listed(ts, a)
  {
    if a.None? then None else Some(ts[AddrIndex(ts, a.value)])
  }

  /** What the thread does with its selection, whatever has become of the list and of `ct` meanwhile. */
  function ActOn(s: State, highest: Option<nat>): (s': State)
    requires Sound(s) && Listed(s.tasks, highest)
    ensures Sound(s') && SameTasks(s.tasks, s'.tasks)
  {
    var s' := Preempted(s, TaskAt(s.tasks, s.ct), TaskAt(s.tasks, highest));
    SameTasksSound(s, s');
    s'
  }

  /** The call deregisters the task at `a`. */
  ghost predicate Frees(s: State, w: Event, a: nat) {
    w.Deregister? && FirstIndex(s.tasks, w.pid) >= 0 && s.tasks[FirstIndex(s.tasks, w.pid)].addr == a
  }

  /** The selected structure is not freed under the thread's hands. */
  ghost predicate SparesSelection(s: ThreadState, w: Event) {
    s.phase.Selected? && s.phase.highest.Some? ==> !Frees(s.base, w, s.phase.highest.value)
  }

  ghost predicate ThreadEnabled(s: ThreadState, e: ThreadEvent) {
    match e
    case Select => s.phase.Resting?
    case Act => s.phase.Selected?
    case Rest => s.phase.Acted?
    case Call(w) => !w.Dispatch? && Enabled(s.base, w) && SparesSelection(s, w)
    case Section(part) => !(part.Split? && part.e.Whole?) && FineEnabled(SplitState(s.base, s.flights), part)
  }

  /** A call made while the thread is awake leaves no wake-up behind. */
  ghost function ThreadStep(s: ThreadState, e: ThreadEvent, msecs: nat -> nat): (s': ThreadState)
    requires ThreadSound(s) && ThreadEnabled(s, e)
    ensures ThreadSound(s')
  {
    match e
    case Select => s.(base := s.base.(woken := false), phase := Selected(HighestAddr(s.base)))
    case Act => s.(base := ActOn(s.base, s.phase.highest), phase := Acted)
    case Rest => s.(phase := Resting)
    case Call(w) =>
      var base := Step(s.base, w, msecs);
      CallKeepsSelection(s, w, msecs);
      s.(base := if s.phase.Resting? then base else base.(woken := false))
    case Section(part) =>
      var split := FineStep(SplitState(s.base, s.flights), part, msecs);
      SectionAppends(s, part, msecs);
      s.(base := split.base, flights := split.flights)
  }

  /** A section never wakes the thread or touches `ct`; all it may do to the list is append a sleeper. */
  ghost predicate AppendsSleeper(s: State, s': State) {
    && s'.ct == s.ct && s'.woken == s.woken
    && s.tasks <= s'.tasks && forall i :: |s.tasks| <= i < |s'.tasks| ==> s'.tasks[i].state == Sleeping
  }

  lemma SectionAppends(s: ThreadState, part: FineEvent, msecs: nat -> nat)
    requires ThreadSound(s) && ThreadEnabled(s, Section(part))
    ensures var s' := FineStep(SplitState(s.base, s.flights), part, msecs).base;
            AppendsSleeper(s.base, s') && (s.phase.Selected? ==> Listed(s'.tasks, s.phase.highest))
  {
    var s' := FineStep(SplitState(s.base, s.flights), part, msecs).base;
    forall a | HasAddr(s.base.tasks, a) ensures HasAddr(s'.tasks, a) {
      var i :| 0 <= i < |s.base.tasks| && s.base.tasks[i].addr == a;
      assert s'.tasks[i].addr == a;
    }
  }

  lemma CallKeepsSelection(s: ThreadState, w: Event, msecs: nat -> nat)
    requires ThreadSound(s) && ThreadEnabled(s, Call(w))
    ensures s.phase.Selected? ==> Listed(Step(s.base, w, msecs).tasks, s.phase.highest)
  {
    if s.phase.Selected? && s.phase.highest.Some? {
      AddrKept(s.base, w, msecs, s.phase.highest.value);
    }
  }

  lemma AddrKept(s: State, w: Event, msecs: nat -> nat, a: nat)
    requires Sound(s) && Enabled(s, w) && HasAddr(s.tasks, a) && !Frees(s, w, a)
    ensures var ts' := Step(s, w, msecs).tasks;
            HasAddr(ts', a) && ts'[AddrIndex(ts', a)].period == s.tasks[AddrIndex(s.tasks, a)].period
  {
    var i' := MovesTo(s, w, msecs, AddrIndex(s.tasks, a));
    assert Step(s, w, msecs).tasks[i'].addr == a;
  }

  lemma DeregisterMoves(s: State, pid: Pid, i: nat) returns (i': nat)
    requires Sound(s) && i < |s.tasks| && i != FirstIndex(s.tasks, pid)
    ensures i' < |DeregisterTask(s, pid).tasks| && DeregisterTask(s, pid).tasks[i'] == s.tasks[i]
  {
    var k := FirstIndex(s.tasks, pid);
    i' := if k < 0 || i < k then i else i - 1;
  }

  /** Where a task that is not freed stands after a call. */
  lemma MovesTo(s: State, w: Event, msecs: nat -> nat, i: nat) returns (i': nat)
    requires Sound(s) && Enabled(s, w) && i < |s.tasks| && !Frees(s, w, s.tasks[i].addr)
    ensures var ts' := Step(s, w, msecs).tasks;
            i' < |ts'| && ts'[i'].addr == s.tasks[i].addr && ts'[i'].period == s.tasks[i].period
  {
    i' := i;
    match w
    case Deregister(pid) => i' := DeregisterMoves(s, pid, i);
    case Register(addr, pid, period, procTime) => assert s.tasks <= RegisterTask(s, addr, pid, period, procTime).tasks;
    case _ => OthersKeepTasks(s, w, msecs);
  }

  // ---------------------------------------------------------------- rate-monotonic order

  function PeriodAt(ts: seq<Task>, a: Option<nat>): Option<Period>
    requires Listed(ts, a)
  {
    if a.None? then None else Some(ts[AddrIndex(ts, a.value)].period)
  }

  predicate Beats(period: Period, lead: Option<Period>) {
    lead.None? || period < lead.value
  }

  /** The period of the task that is current once the thread has acted on its selection. */
  ghost function Lead(s: ThreadState): Option<Period>
    requires ThreadSound(s)
  {
    var current := PeriodAt(s.base.tasks, s.base.ct);
    match s.phase
    case Selected(h) =>
      var highest := PeriodAt(s.base.tasks, h);
      if highest.None? || (current.Some? && current.value <= highest.value) then current else highest
    case _ => current
  }

  /** The period of the task that takes over if `ct` is cleared before the thread rests. */
  ghost function Heir(s: ThreadState): Option<Period>
    requires ThreadSound(s)
  {
    if s.phase.Selected? then PeriodAt(s.base.tasks, s.phase.highest) else None
  }

  ghost predicate Outranked(ts: seq<Task>, lead: Option<Period>) {
    exists i :: 0 <= i < |ts| && ts[i].state == Ready && Beats(ts[i].period, lead)
  }

  /** Nothing READY beats the task that is, or is about to be, current. */
  ghost predicate InOrder(s: ThreadState)
    requires ThreadSound(s)
  {
    !Outranked(s.base.tasks, Lead(s))
  }

  lemma QuietIsInOrder(s: ThreadState)
    requires ThreadSound(s) && !s.phase.Selected?
    ensures InOrder(s) <==> Quiet(s.base)
  {
    var ts := s.base.tasks;
    if s.base.ct.Some? {
      var c := AddrIndex(ts, s.base.ct.value);
      assert forall i :: 0 <= i < |ts| && ts[i].addr == s.base.ct.value ==> i == c;
      assert Lead(s) == Some(ts[c].period);
    } else {
      assert Lead(s) == None;
    }
  }

  /** From any state the selection puts the thread in order: nothing READY beats the highest. */
  lemma SelectOrders(s: ThreadState, msecs: nat -> nat)
    requires ThreadSound(s) && ThreadEnabled(s, Select)
    ensures InOrder(ThreadStep(s, Select, msecs))
  {
    var ts, h := s.base.tasks, Highest(s.base.tasks);
    if h >= 0 {
      assert AddrIndex(ts, ts[h].addr) == h;
    }
  }

  /** With nothing selected, the action demotes the current task, if there is one by then. */
  lemma ActOnNobody(s: State)
    requires Sound(s)
    ensures s.ct.None? ==> ActOn(s, None) == s.(woken := false)
    ensures forall c :: 0 <= c < |s.tasks| && s.ct == Some(s.tasks[c].addr) ==>
              ActOn(s, None) == s.(woken := false, tasks := s.tasks[c := s.tasks[c].(state := Ready)])
  {
    forall c | 0 <= c < |s.tasks| && s.ct == Some(s.tasks[c].addr)
      ensures ActOn(s, None).tasks == s.tasks[c := s.tasks[c].(state := Ready)]
    {
      CtAt(s, c);
      SetOne(s.tasks, c, Ready);
    }
  }

  lemma SelectedAt(ts: seq<Task>, h: nat)
    requires AddrsUnique(ts) && h < |ts|
    ensures HasAddr(ts, ts[h].addr) && AddrIndex(ts, ts[h].addr) == h
  {
    assert HasAddr(ts, ts[h].addr);
  }

  /** The selected task is run, in whatever state it is by then, unless a task of no longer period is current. */
  lemma ActOnSelection(s: State, h: nat)
    requires Sound(s) && h < |s.tasks|
    ensures HasAddr(s.tasks, s.tasks[h].addr)
    ensures s.ct.None? ==>
              ActOn(s, Some(s.tasks[h].addr))
              == s.(woken := false, ct := Some(s.tasks[h].addr), tasks := s.tasks[h := s.tasks[h].(state := Running)])
  {
    SelectedAt(s.tasks, h);
    SetOne(s.tasks, h, Running);
  }

  lemma ActOverCurrent(s: State, h: nat, c: nat)
    requires Sound(s) && h < |s.tasks| && c < |s.tasks| && s.ct == Some(s.tasks[c].addr)
    ensures HasAddr(s.tasks, s.tasks[h].addr)
    ensures ActOn(s, Some(s.tasks[h].addr))
            == if s.tasks[c].period > s.tasks[h].period then
                 s.(woken := false, ct := Some(s.tasks[h].addr),
                    tasks := s.tasks[c := s.tasks[c].(state := Ready)][h := s.tasks[h].(state := Running)])
               else s.(woken := false)
  {
    SelectedAt(s.tasks, h);
    CtAt(s, c);
    SetOne(s.tasks, c, Ready);
    SetOne(s.tasks[c := s.tasks[c].(state := Ready)], h, Running);
  }

  /** A call is the same call whether the thread sleeps or not, but for its wake-up, which only a sleeping thread keeps. */
  lemma CallExactly(s: ThreadState, w: Event, msecs: nat -> nat)
    requires ThreadSound(s) && ThreadEnabled(s, Call(w))
    ensures var s', base := ThreadStep(s, Call(w), msecs), Step(s.base, w, msecs);
            && s'.flights == s.flights && s'.phase == s.phase
            && s'.base == base.(woken := s'.base.woken)
            && (s'.base.woken <==> s.phase.Resting? && (WakesUp(s.base, w, msecs) || s.base.woken))
  {
    WokenExactly(s.base, w, msecs);
  }

  /** After the action the lead is current. */
  lemma ActLeads(s: State, highest: Option<nat>)
    requires Sound(s) && Listed(s.tasks, highest)
    ensures var s' := ActOn(s, highest);
            PeriodAt(s'.tasks, s'.ct) == Lead(ThreadState(s, [], Selected(highest)))
  {
    var ts, ts' := s.tasks, ActOn(s, highest).tasks;
    forall a | HasAddr(ts, a) ensures HasAddr(ts', a) && ts'[AddrIndex(ts', a)].period == ts[AddrIndex(ts, a)].period {
      var i := AddrIndex(ts, a);
      assert ts'[i].addr == a;
    }
  }

  /** The action makes nobody READY but a current task it replaces, or one that stays in the lead. */
  lemma ActReadies(s: State, highest: Option<nat>, i: nat)
    requires Sound(s) && Listed(s.tasks, highest) && i < |s.tasks|
    ensures var t, t', lead := s.tasks[i], ActOn(s, highest).tasks[i], Lead(ThreadState(s, [], Selected(highest)));
            (t'.state == Ready && Beats(t'.period, lead)) <==> (t.state == Ready && Beats(t.period, lead))
  {
  }

  lemma ActKeepsOrder(s: ThreadState, msecs: nat -> nat)
    requires ThreadSound(s) && ThreadEnabled(s, Act)
    ensures InOrder(ThreadStep(s, Act, msecs)) <==> InOrder(s)
  {
    var h := s.phase.highest;
    ActLeads(s.base, h);
    forall i | 0 <= i < |s.base.tasks|
      ensures var t, t' := s.base.tasks[i], ActOn(s.base, h).tasks[i];
              (t'.state == Ready && Beats(t'.period, Lead(s))) <==> (t.state == Ready && Beats(t.period, Lead(s)))
    {
      ActReadies(s.base, h, i);
    }
  }

  // ---------------------------------------------------------------- the wake-ups that matter

  ghost predicate OthersOutrank(ts: seq<Task>, k: int, lead: Option<Period>) {
    exists i :: 0 <= i < |ts| && i != k && ts[i].state == Ready && Beats(ts[i].period, lead)
  }

  /**
  The calls whose wake-up the thread needs: a timer of a task that beats the one about to be current,
  and a call that clears `ct` while some other READY task beats the one that takes over.
  */
  ghost predicate Needed(s: ThreadState, w: Event, msecs: nat -> nat)
    requires ThreadSound(s) && Enabled(s.base, w)
  {
    var ts := s.base.tasks;
    match w
    case TimerFires(a) =>
      exists i :: 0 <= i < |ts| && ts[i].pid == s.base.timers[a].data && Beats(ts[i].period, Lead(s))
    case Yield(pid) => YieldSucceeds(s.base, pid, msecs) && OthersOutrank(ts, LastIndex(ts, pid), Heir(s))
    case Deregister(pid) => FreesCurrent(s.base, w.pid) && OthersOutrank(ts, FirstIndex(ts, pid), Heir(s))
    case _ => false
  }

  ghost predicate Clears(s: State, w: Event, msecs: nat -> nat) {
    (w.Yield? && YieldSucceeds(s, w.pid, msecs)) || (w.Deregister? && FreesCurrent(s, w.pid))
  }

  lemma PeriodKept(s: State, w: Event, msecs: nat -> nat, a: Option<nat>)
    requires Sound(s) && Enabled(s, w) && Listed(s.tasks, a) && (a.Some? ==> !Frees(s, w, a.value))
    ensures Listed(Step(s, w, msecs).tasks, a)
    ensures PeriodAt(Step(s, w, msecs).tasks, a) == PeriodAt(s.tasks, a)
  {
    if a.Some? {
      AddrKept(s, w, msecs, a.value);
    }
  }

  lemma CtAfter(s: State, w: Event, msecs: nat -> nat)
    requires Sound(s) && Enabled(s, w) && !w.Dispatch?
    ensures Step(s, w, msecs).ct == if Clears(s, w, msecs) then None else s.ct
  {
  }

  /** A call that clears `ct` makes the heir the lead; no other call changes it. */
  lemma LeadAfter(s: ThreadState, w: Event, msecs: nat -> nat)
    requires ThreadSound(s) && ThreadEnabled(s, Call(w)) && !s.phase.Resting?
    ensures Lead(ThreadStep(s, Call(w), msecs)) == if Clears(s.base, w, msecs) then Heir(s) else Lead(s)
  {
    CtAfter(s.base, w, msecs);
    if s.phase.Selected? {
      PeriodKept(s.base, w, msecs, s.phase.highest);
    }
    if !Clears(s.base, w, msecs) {
      PeriodKept(s.base, w, msecs, s.base.ct);
    }
  }

  lemma FireOutranks(s: State, a: nat, lead: Option<Period>)
    requires Sound(s) && a in s.timers && !Outranked(s.tasks, lead)
    ensures Outranked(FireTimer(s, a).tasks, lead) <==>
            exists i :: 0 <= i < |s.tasks| && s.tasks[i].pid == s.timers[a].data && Beats(s.tasks[i].period, lead)
  {
    var ts, ts' := s.tasks, FireTimer(s, a).tasks;
    if Outranked(ts', lead) {
      var i :| 0 <= i < |ts'| && ts'[i].state == Ready && Beats(ts'[i].period, lead);
      assert ts[i].pid == s.timers[a].data;
    }
    if i :| 0 <= i < |ts| && ts[i].pid == s.timers[a].data && Beats(ts[i].period, lead) {
      assert ts'[i].state == Ready && ts'[i].period == ts[i].period;
    }
  }

  lemma YieldOutranks(s: State, pid: Pid, msecs: nat -> nat, lead: Option<Period>)
    requires Sound(s) && YieldSucceeds(s, pid, msecs)
    ensures Outranked(YieldTask(s, pid, msecs).tasks, lead) <==> OthersOutrank(s.tasks, LastIndex(s.tasks, pid), lead)
  {
    var ts, ts', k := s.tasks, YieldTask(s, pid, msecs).tasks, LastIndex(s.tasks, pid);
    if Outranked(ts', lead) {
      var i :| 0 <= i < |ts'| && ts'[i].state == Ready && Beats(ts'[i].period, lead);
      assert i != k && ts[i] == ts'[i];
    }
    if i :| 0 <= i < |ts| && i != k && ts[i].state == Ready && Beats(ts[i].period, lead) {
      assert ts'[i] == ts[i];
    }
  }

  lemma RemoveOutranks(ts: seq<Task>, k: nat, lead: Option<Period>)
    requires k < |ts|
    ensures Outranked(Remove(ts, k), lead) <==> OthersOutrank(ts, k, lead)
  {
    var ts' := Remove(ts, k);
    if Outranked(ts', lead) {
      var i :| 0 <= i < |ts'| && ts'[i].state == Ready && Beats(ts'[i].period, lead);
      assert ts[if i < k then i else i + 1] == ts'[i];
    }
    if i :| 0 <= i < |ts| && i != k && ts[i].state == Ready && Beats(ts[i].period, lead) {
      assert ts'[if i < k then i else i - 1] == ts[i];
    }
  }

  /** A call that neither wakes nor removes anybody makes nobody READY. */
  lemma OthersReadyNobody(s: State, w: Event, msecs: nat -> nat, lead: Option<Period>)
    requires Sound(s) && Enabled(s, w) && !Outranked(s.tasks, lead)
    requires w.Register? || w.Tick? || (w.Yield? && !YieldSucceeds(s, w.pid, msecs))
    ensures !Outranked(Step(s, w, msecs).tasks, lead)
  {
    var ts, ts' := s.tasks, Step(s, w, msecs).tasks;
    forall i | 0 <= i < |ts'| ensures !(ts'[i].state == Ready && Beats(ts'[i].period, lead)) {
      assert i < |ts| ==> ts'[i].state == ts[i].state && ts'[i].period == ts[i].period;
    }
  }

  /**
  One call while the thread is awake. Its wake-up is lost; the thread stays in order if and only if
  the wake-up was not needed.
  */
  lemma NeededExactly(s: ThreadState, w: Event, msecs: nat -> nat)
    requires ThreadSound(s) && ThreadEnabled(s, Call(w)) && !s.phase.Resting? && InOrder(s)
    ensures InOrder(ThreadStep(s, Call(w), msecs)) <==> !Needed(s, w, msecs)
  {
    LeadAfter(s, w, msecs);
    match w
    case TimerFires(a) =>
      FireOutranks(s.base, a, Lead(s));
    case Yield(pid) =>
      if YieldSucceeds(s.base, pid, msecs) {
        YieldOutranks(s.base, pid, msecs, Heir(s));
      } else {
        OthersReadyNobody(s.base, w, msecs, Lead(s));
      }
    case Deregister(pid) =>
      var k := FirstIndex(s.base.tasks, pid);
      if k >= 0 {
        RemoveOutranks(s.base.tasks, k, if FreesCurrent(s.base, w.pid) then Heir(s) else Lead(s));
      }
    case Register(_, _, _, _) =>
      OthersReadyNobody(s.base, w, msecs, Lead(s));
    case Tick(_) =>
      OthersReadyNobody(s.base, w, msecs, Lead(s));
  }

  lemma PeriodStays(s: State, s': State, a: Option<nat>)
    requires AppendsSleeper(s, s') && AddrsUnique(s'.tasks) && Listed(s.tasks, a)
    ensures Listed(s'.tasks, a) && PeriodAt(s'.tasks, a) == PeriodAt(s.tasks, a)
  {
    if a.Some? {
      var i := AddrIndex(s.tasks, a.value);
      assert s'.tasks[i].addr == a.value;
    }
  }

  /** A section of a registration changes nothing about the order. */
  lemma SectionKeepsOrder(s: ThreadState, part: FineEvent, msecs: nat -> nat)
    requires ThreadSound(s) && ThreadEnabled(s, Section(part))
    ensures InOrder(ThreadStep(s, Section(part), msecs)) <==> InOrder(s)
  {
    var s' := ThreadStep(s, Section(part), msecs);
    SectionAppends(s, part, msecs);
    PeriodStays(s.base, s'.base, s.base.ct);
    if s.phase.Selected? {
      PeriodStays(s.base, s'.base, s.phase.highest);
    }
    assert Lead(s') == Lead(s);
    forall i | 0 <= i < |s.base.tasks| ensures s'.base.tasks[i] == s.base.tasks[i] {
    }
  }

  // ---------------------------------------------------------------- whole runs

  ghost predicate ThreadLegal(s: ThreadState, es: seq<ThreadEvent>, msecs: nat -> nat)
    requires ThreadSound(s)
    decreases |es|
  {
    es == [] || (ThreadEnabled(s, es[0]) && ThreadLegal(ThreadStep(s, es[0], msecs), es[1..], msecs))
  }

  ghost function ThreadExec(s: ThreadState, es: seq<ThreadEvent>, msecs: nat -> nat): (s': ThreadState)
    requires ThreadSound(s) && ThreadLegal(s, es, msecs)
    ensures ThreadSound(s')
    decreases |es|
  {
    if es == [] then s else ThreadExec(ThreadStep(s, es[0], msecs), es[1..], msecs)
  }

  /** No call whose wake-up the thread needs falls into the time it is awake. */
  ghost predicate Timely(s: ThreadState, e: ThreadEvent, msecs: nat -> nat)
    requires ThreadSound(s) && ThreadEnabled(s, e)
  {
    e.Call? && !s.phase.Resting? ==> !Needed(s, e.e, msecs)
  }

  ghost predicate TimelyRun(s: ThreadState, es: seq<ThreadEvent>, msecs: nat -> nat)
    requires ThreadSound(s) && ThreadLegal(s, es, msecs)
    decreases |es|
  {
    es == [] || (Timely(s, es[0], msecs) && TimelyRun(ThreadStep(s, es[0], msecs), es[1..], msecs))
  }

  /** In order, unless the thread rests with a wake-up pending. */
  ghost predicate Attended(s: ThreadState)
    requires ThreadSound(s)
  {
    (s.phase.Resting? && s.base.woken) || InOrder(s)
  }

  lemma TimelyStep(s: ThreadState, e: ThreadEvent, msecs: nat -> nat)
    requires ThreadSound(s) && ThreadEnabled(s, e) && Attended(s) && Timely(s, e, msecs)
    ensures Attended(ThreadStep(s, e, msecs))
  {
    match e
    case Select => SelectOrders(s, msecs);
    case Act => ActKeepsOrder(s, msecs);
    case Rest =>
    case Call(w) =>
      if s.phase.Resting? {
        QuietIsInOrder(s);
        QuietKept(s.base, w, msecs);
        QuietIsInOrder(ThreadStep(s, e, msecs));
      } else {
        NeededExactly(s, w, msecs);
      }
    case Section(part) => SectionKeepsOrder(s, part, msecs);
  }

  lemma {:induction false} TimelyRunAttended(s: ThreadState, es: seq<ThreadEvent>, msecs: nat -> nat)
    requires ThreadSound(s) && ThreadLegal(s, es, msecs) && Attended(s) && TimelyRun(s, es, msecs)
    ensures Attended(ThreadExec(s, es, msecs))
    decreases |es|
  {
    if es != [] {
      TimelyStep(s, es[0], msecs);
      TimelyRunAttended(ThreadStep(s, es[0], msecs), es[1..], msecs);
    }
  }

  /**
  Main theorem. Whatever calls land between the selection, the action and the next sleep: as long as
  no wake-up that the thread needs is lost, the order is rate-monotonic whenever it rests unwoken.
  */
  lemma TimelyRunsQuiet(now: nat, es: seq<ThreadEvent>, msecs: nat -> nat)
    requires ThreadLegal(ThreadState(Boot(now), [], Resting), es, msecs)
    requires TimelyRun(ThreadState(Boot(now), [], Resting), es, msecs)
    ensures var s := ThreadExec(ThreadState(Boot(now), [], Resting), es, msecs);
            s.phase.Resting? && !s.base.woken ==> Quiet(s.base)
  {
    TimelyRunAttended(ThreadState(Boot(now), [], Resting), es, msecs);
    var s := ThreadExec(ThreadState(Boot(now), [], Resting), es, msecs);
    if s.phase.Resting? {
      QuietIsInOrder(s);
    }
  }

  lemma ThreadCons(s: ThreadState, e: ThreadEvent, es: seq<ThreadEvent>, msecs: nat -> nat)
    requires ThreadSound(s) && ThreadEnabled(s, e) && ThreadLegal(ThreadStep(s, e, msecs), es, msecs)
    ensures ThreadLegal(s, [e] + es, msecs)
    ensures ThreadExec(s, [e] + es, msecs) == ThreadExec(ThreadStep(s, e, msecs), es, msecs)
  {
    assert ([e] + es)[1..] == es;
  }

  /** The converse: a needed wake-up that is lost leaves the thread asleep, unwoken and out of order. */
  lemma LostForGood(s: ThreadState, w: Event, msecs: nat -> nat) returns (es: seq<ThreadEvent>)
    requires ThreadSound(s) && ThreadEnabled(s, Call(w)) && !s.phase.Resting? && InOrder(s)
    requires Needed(s, w, msecs)
    ensures es != [] && es[0] == Call(w) && forall e <- es[1..] :: e.Act? || e.Rest?
    ensures ThreadLegal(s, es, msecs)
    ensures var s' := ThreadExec(s, es, msecs); s'.phase.Resting? && !s'.base.woken && !Quiet(s'.base)
  {
    NeededExactly(s, w, msecs);
    var next := ThreadStep(s, Call(w), msecs);
    es := ActsAndRests(next, msecs);
    ThreadCons(s, Call(w), es, msecs);
    es := [Call(w)] + es;
  }

  /** Left alone, the thread carries its order, good or bad, into its sleep. */
  lemma ActsAndRests(s: ThreadState, msecs: nat -> nat) returns (es: seq<ThreadEvent>)
    requires ThreadSound(s) && !s.phase.Resting? && !s.base.woken
    ensures forall e <- es :: e.Act? || e.Rest?
    ensures ThreadLegal(s, es, msecs)
    ensures var s' := ThreadExec(s, es, msecs); s'.phase.Resting? && !s'.base.woken && (Quiet(s'.base) <==> InOrder(s))
  {
    if s.phase.Selected? {
      ActKeepsOrder(s, msecs);
      var acted := ThreadStep(s, Act, msecs);
      QuietIsInOrder(acted);
      ThreadCons(acted, Rest, [], msecs);
      ThreadCons(s, Act, [Rest] + [], msecs);
      es := [Act] + ([Rest] + []);
    } else {
      QuietIsInOrder(s);
      ThreadCons(s, Rest, [], msecs);
      es := [Rest] + [];
    }
  }

  // ---------------------------------------------------------------- against the atomic dispatch

  /** The state of the machine with one-step dispatches, the thread asleep. */
  ghost function Asleep(s: SplitState): ThreadState {
    ThreadState(s.base, s.flights, Resting)
  }

  /** Without calls in between, the three steps are the one dispatch. */
  lemma DispatchIsUnsplit(s: SplitState, rest: seq<ThreadEvent>, msecs: nat -> nat)
    requires Sound(s.base) && ThreadLegal(Asleep(s.(base := DispatchOnce(s.base))), rest, msecs)
    ensures var es := [Select] + ([Act] + ([Rest] + rest));
            && ThreadLegal(Asleep(s), es, msecs)
            && ThreadExec(Asleep(s), es, msecs) == ThreadExec(Asleep(s.(base := DispatchOnce(s.base))), rest, msecs)
  {
    var selected := ThreadStep(Asleep(s), Select, msecs);
    var acted := ThreadStep(selected, Act, msecs);
    ActIsDispatch(s.base);
    ThreadCons(acted, Rest, rest, msecs);
    ThreadCons(selected, Act, [Rest] + rest, msecs);
    ThreadCons(Asleep(s), Select, [Act] + ([Rest] + rest), msecs);
  }

  lemma ActIsDispatch(s: State)
    requires Sound(s)
    ensures ActOn(s.(woken := false), HighestAddr(s)) == DispatchOnce(s)
  {
    var h := Highest(s.tasks);
    if h >= 0 {
      assert AddrIndex(s.tasks, s.tasks[h].addr) == h;
    }
  }

  lemma StepLifts(s: SplitState, e: FineEvent, rest: seq<ThreadEvent>, msecs: nat -> nat)
    returns (ts: seq<ThreadEvent>)
    requires Sound(s.base) && FineEnabled(s, e) && ThreadLegal(Asleep(FineStep(s, e, msecs)), rest, msecs)
    ensures ThreadLegal(Asleep(s), ts, msecs)
    ensures ThreadExec(Asleep(s), ts, msecs) == ThreadExec(Asleep(FineStep(s, e, msecs)), rest, msecs)
  {
    if e.Split? && e.e.Whole? && e.e.e.Dispatch? {
      DispatchIsUnsplit(s, rest, msecs);
      ts := [Select] + ([Act] + ([Rest] + rest));
    } else {
      var call := if e.Split? && e.e.Whole? then Call(e.e.e) else Section(e);
      assert ThreadStep(Asleep(s), call, msecs) == Asleep(FineStep(s, e, msecs));
      ThreadCons(Asleep(s), call, rest, msecs);
      ts := [call] + rest;
    }
  }

  /** So every run with one-step dispatches, registrations in sections included, is a run of this machine. */
  lemma {:induction false} RunLifts(s: SplitState, es: seq<FineEvent>, rest: seq<ThreadEvent>, msecs: nat -> nat)
    returns (ts: seq<ThreadEvent>)
    requires Sound(s.base) && FineLegal(s, es, msecs) && ThreadLegal(Asleep(FineExec(s, es, msecs)), rest, msecs)
    ensures ThreadLegal(Asleep(s), ts, msecs)
    ensures ThreadExec(Asleep(s), ts, msecs) == ThreadExec(Asleep(FineExec(s, es, msecs)), rest, msecs)
    decreases |es|
  {
    ts := rest;
    if es != [] {
      ts := RunLifts(FineStep(s, es[0], msecs), es[1..], rest, msecs);
      ts := StepLifts(s, es[0], ts, msecs);
    }
  }

  lemma LosesWakeUp(s: State, msecs: nat -> nat) returns (es: seq<ThreadEvent>)
    requires Sound(s) && s == BothAsleep(Ddl(msecs), Ddl(msecs))
    ensures ThreadLegal(ThreadState(s, [], Resting), es, msecs)
    ensures var s' := ThreadExec(ThreadState(s, [], Resting), es, msecs);
            s'.phase.Resting? && !s'.base.woken && !Quiet(s'.base)
  {
    var selected := ThreadStep(ThreadState(s, [], Resting), Select, msecs);
    SelectOrders(ThreadState(s, [], Resting), msecs);
    assert Highest(s.tasks) < 0 && Lead(selected) == None;
    assert s.tasks[0].pid == s.timers[0].data && Beats(s.tasks[0].period, Lead(selected));
    var rest := LostForGood(selected, TimerFires(0), msecs);
    ThreadCons(ThreadState(s, [], Resting), Select, rest, msecs);
    es := [Select] + rest;
  }

  /** From loading the module: a timer fires behind the selection, and a READY task waits for an idle CPU. */
  lemma LostWakeUp(msecs: nat -> nat) returns (now: nat, es: seq<ThreadEvent>)
    ensures ThreadLegal(ThreadState(Boot(now), [], Resting), es, msecs)
    ensures var s := ThreadExec(ThreadState(Boot(now), [], Resting), es, msecs);
            s.phase.Resting? && !s.base.woken && !Quiet(s.base)
  {
    BothDue(msecs);
    var s := BothAsleep(Ddl(msecs), Ddl(msecs));
    es := LosesWakeUp(s, msecs);
    var boot: nat, run :| boot > 0 && Legal(Boot(boot), run, msecs) && Exec(Boot(boot), run, msecs) == s;
    var fine := WholeRun(Boot(boot), run, msecs);
    now := boot;
    es := RunLifts(SplitState(Boot(boot), []), fine, es, msecs);
  }
}
