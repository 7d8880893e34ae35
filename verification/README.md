# A verified model of the MP2 scheduler and the MP3 profiler

This project models the two kernel modules with state: the MP2 rate-monotonic scheduler (task list,
timers, current task, admission counter, dispatching thread) and the MP3 page-fault profiler (pid
list, sampling work item, shared ring buffer, page mapping, user-space monitor), together with the
text commands that drive MP2. It proves what holds over whole runs of those modules.

`dafny verify dfyconfig.toml` checks everything.

## Layout

| file | contents |
|---|---|
| Words.dfy | word sizes and the optional value |
| Scheduler.dfy | the MP2 state machine: one function per entry point, events, runs |
| Effects.dfy | what each MP2 call does, field by field, and when it wakes the dispatcher |
| Admission.dfy | the sections of a registration, and what each keeps of `total_util` |
| Overlap.dfy | runs with the admission test apart from its update, where the limit can break |
| Runs.dfy | invariants of every reachable state, rate-monotonic order |
| Duplicates.dfy | when interleaved registrations can list one pid twice |
| Deadlines.dfy | a run against a book kept from the calls and the clock alone |
| Interleaved.dfy | the invariants and deadlines when registrations interleave |
| Priority.dfy | how many tasks can be RUNNING, when `ct` is not, how often `ct` can change |
| Wakeups.dfy | the dispatching thread with calls in between its steps, lost wake-ups |
| Schedulability.dfy | what the constant 726663 guarantees |
| Overload.dfy | what is left of that guarantee when admissions overlap |
| SchedulerModule.dfy | MP2 with structures on the heap, proved to perform the steps of Scheduler.dfy |
| Command.dfy | the command printers and the parser in `mp2_write` |
| Ring.dfy | `vmem_buf` and `vmem_buf_push_next` |
| Monitor.dfy | the monitor's scan and drain loops |
| SampleWindow.dfy | what the monitor can see, as a small machine of its own |
| Pipeline.dfy | pushes and monitor runs on one buffer, proved to behave like that machine |
| Sampler.dfy | the pid list, the work handler, conservation of counts |
| SamplerEffects.dfy | what each MP3 event does, field by field |
| ProfilerModule.dfy | MP3's entry points, proved to perform the steps of Sampler.dfy |
| EndToEnd.dfy | from page faults to printed lines |
| Mapping.dfy | the loop of `cdev_mmap_callback` |

## Main results

- **Admission bound.** For tasks with `proc_time` below 2^44 the admission constant implies the
  hyperbolic schedulability test, product of (1 + C/T) at most 2, for every set of at most n listed
  tasks **if and only if n is at most 585** (`HyperbolicExactly`). The proof goes through the inequality
  of arithmetic and geometric means; the other direction registers 586 concrete tasks, which are
  admitted and fail the test. With a bound B on `proc_time` in place of 2^44, large enough for those 586,
  the test is implied if and only if n is at most 585 and B at most 2^44 (`HyperbolicFrontier`): at 2^44
  the shift drops a bit, and one task of any load is admitted as 0 (`ShiftedOutLoad`). This ranges over
  every run, sections of registrations interleaved at will, in which **no admission overdraws another**
  (see the next point). Without that condition the frontier is n = 0: two overlapping admissions put the
  counter at 1400000, the next test's 64-bit addition wraps, and one task of load 2^44 - 1 is admitted
  (`OneTaskOverloads`, `OverlapFrontier`). If tests overlap but none wraps, it is n = 1
  (`TwoTasksOverload`, `UnwrappedFrontier`). What fails beyond the limits is the implied test; that such
  a set misses deadlines is not shown.
- **Counting under interleaving.** The code locks neither the admission test nor the update behind it
  (MP2/scheduler.c:45-52). With the two apart, `total_util` still counts the listed and the admitted
  tasks, as a 64-bit word (`FineRunsCounted`), but **the limit can break** (`OvershootWitness`). There is
  room for every tested share after a step if and only if the step does not overdraw, that is, is
  not a test that lets a share through on top of pending ones that leave no room for it
  (`BudgetKeptExactly`). Runs without such a
  test keep the counter exact and below the limit and their arithmetic never wraps
  (`WithinBudgetFromBoot`); one such test is enough for the pending updates to reach the limit
  (`OverdraftBreaksLimit`); and from any state with an exact counter the pending updates stay below the
  limit if and only if there is room for all of them (`BudgetExactly`). Tests that do not overlap never
  overdraw (`OverlapFreeFromBoot`), and a lock around the two lines would be enough (`LockedFromBoot`).
- **Unique pids.** One call at a time keeps pids unique (`ReachableWellFormed`); interleaved
  registrations do not (`DuplicatePid`). Over whole runs they stay unique if no registration of a pid
  starts or goes through as a whole while another one of that pid is under way (`GuardedRunsUnique`); a
  step breaks the invariant behind this if and only if it does just that (`FineCleanExactly`), and once
  two registrations of a pid are under way that each pass their test, or one of a listed pid, some
  continuation lists the pid twice (`SharedFlightsDouble`, `ListedFlightDoubles`).
- **Rate-monotonic order.** With a dispatch as one step and no wake-up pending, nothing READY beats the
  current task, and further dispatches leave it alone (`QuiescentIsRateMonotonic`). In the code a wake-up
  that reaches the dispatching thread while it is awake is lost (MP2/mp2_main.c:55-56), so Wakeups.dfy
  takes a dispatch apart and lets calls, and sections of registrations, land between the selection, the
  action and the next sleep. A call there spoils the order if and only if it is a timer of a task that beats the one about to be current,
  or it clears `ct` while another READY task beats the one that takes over (`NeededExactly`). Runs without
  such calls are in order whenever the thread sleeps unwoken (`TimelyRunsQuiet`), each such call leaves
  it asleep, unwoken and out of order if nothing else comes (`LostForGood`), and it happens
  (`LostWakeUp`).
- **RUNNING tasks.** "At most one RUNNING task" is false of the code, because a successful yield clears
  `ct` whoever makes it (`TwoRunning`). A step leaves a RUNNING task behind if and only if it is such a
  yield by another task while `ct` is RUNNING (`StrayAppears`), and the number of these yields bounds the
  RUNNING tasks other than `ct` over any run (`RunningBounded`). Nor is `ct` always RUNNING: a dispatch
  leaves it set and READY exactly in the two cases of `DispatchIdlesExactly`, further dispatches do not
  bring it back (`IdleStaysIdle`), and it happens without any spurious wake-up (`IdleReachable`).
- **Switches.** While nobody yields, `ct` changes at most as often as there are other tasks, each time
  to a strictly shorter period (`CalmSegment`, a potential argument).
- **By the book.** Somebody who sees only the calls and the clock can keep a book: which registrations
  went through with which arguments, how often each task has yielded, when first, which yields were in
  time. After every run the task list, the deadlines, the pending timers and the counter are what the book
  says (`NoDrift`), and so is the outcome of the next yield (`YieldByTheBook`): it succeeds if and only if
  it is the task's first or the period it ends has not passed. So deadlines never drift, no sleeper is
  lost, and the callback never touches the current task. With the sections of registrations interleaved
  the same holds in every run that keeps pids unique in the way above, whether or not the admission limit
  holds (`InterleavedNoDrift`). A wake-up is pending if and only if, since the last dispatch, a timer has
  fired, a yield was in time, or the current task was deregistered (`WokenFromBoot`).
- **Each call, exactly.** Effects.dfy and SamplerEffects.dfy give for every entry point the guard, each
  field it sets and everything it leaves alone; `TickExactly` says what a sampling tick reads, reports,
  clears and notes, up to the first dead pid and not beyond.
- **The shared buffer.** Over any session, of any length and past any number of wraps of the kernel's
  ring, the monitor prints what a small machine with 12000 slots prints (`SessionRefines`). If the
  monitor runs often enough that no batch meets the window twice, batches of at most 119072 samples for
  instance, that has a closed form (`SessionPrints`, `PacedSessions`); a batch that does is not printed
  in full (`OnePassExactly`). Every sample is printed exactly once, in order and by the drain that
  follows it, **if and only if at most 12000 are pushed**, however long the session (`CompleteExactly`).
  Then what is printed adds up to the faults and CPU time of each process (`PrintedIsAccrued`).
- **The sampler**'s list is, in order, what the registrations and deregistrations say, and it is queued if
  and only if somebody is listed and no tick has met a dead process since the list was last empty
  (`RunKeepsList`).

## Modelling decisions

- Each entry point is one atomic step, with two exceptions. From Admission.dfy on, `Task_register` may
  come in its check, its admission test, its update of the counter and its append, with other calls in
  between; Runs.dfy, Deadlines.dfy and Priority.dfy run it as a whole. Wakeups.dfy splits a dispatch too.
- MP2/scheduler.c:39 and :95 and MP3/profiler.c:134 return with a lock held; the model releases it.
- A wake-up is a flag set by the callback, by a successful yield and by deregistering `ct`, and cleared by
  a dispatch. A dispatch may also happen without it, so the results cover spurious wake-ups. With a
  dispatch as one step no wake-up is lost; in Wakeups.dfy one that arrives while the thread is awake is.
- `jiffies` is a natural number, positive at load time, that never decreases; `next_ddl` does not wrap.
  `msecs_to_jiffies` is an arbitrary function. A period is positive, since the code divides by it.
- Structures are named by their address; the address the slab allocator returns is a parameter, unused
  by any listed structure. Kernel timers are a map from that address, so deleting one is a real step.
- The pids of processes MP3 samples are positive, as the kernel's are, so no record carries the marker -1
  as its pid. A record whose MINOR cell equals that marker looks like the broken record of an empty drain;
  `CompleteExactly` sets such samples aside.
- `vmalloc_to_pfn`, failures of `remap_pfn_range`, process creation and exit are parameters or events.
- Cells are 64-bit longs. `(long) util * 100 / 20` wraps as the machine does; the sums over UTIL ask that
  the product fits. The comment on MP3/monitor.c:14 calls 48000 a number of samples; the code uses it as
  a number of cells, 12000 samples, and the model follows the code.
- A parsed field that `sscanf` did not find stays uninitialised in the C code; the model returns it as
  `None`, and `Oops` where a NULL token reaches `sscanf`.

## Model

| member | source | states |
|---|---|---|
| `Scheduler.TruncUtil` | MP2/scheduler.c:45 | the fixed-point utilisation leaves room for a full counter below 2^64, and is the floor of the exact value when proc_time is below 2^44 |
| `Scheduler.Highest` | MP2/scheduler.c:152-165 | NULL exactly when nothing is READY, otherwise the earliest-registered READY task of minimum period |
| `Scheduler.HighestIsUnique` | MP2/scheduler.c:152-165 | that policy determines the result: the one-pass loop returns it and nothing else |
| `Scheduler.RegisterTask` | MP2/scheduler.c:31-70 | keeps `ct` and every pending timer on a listed structure, and structures distinct |
| `Scheduler.YieldTask` | MP2/scheduler.c:72-114 | the same, and neither the set of tasks nor their order changes |
| `Scheduler.DeregisterTask` | MP2/scheduler.c:117-149 | the same: no pointer or timer to the removed structure survives |
| `Scheduler.FireTimer` | MP2/mp2_main.c:30-44 | the same, for the timer callback |
| `Scheduler.DispatchOnce` | MP2/mp2_main.c:50-92 | the same, for one turn of the dispatching thread |
| `Effects.ShareOf` | MP2/scheduler.c:45 | for every proc_time and period the share is the whole part of proc_time * 2^20 / period, the top 20 bits of proc_time lost |
| `Effects.RegisterExactly` | MP2/scheduler.c:31-70 | goes through if and only if the pid is unlisted and the 64-bit sum with the share is below 726663; then exactly one task is appended, with the arguments given, deadline 0 and SLEEPING, the share is added, and nothing else changes; otherwise nothing does |
| `Effects.CheckExactly` | MP2/scheduler.c:34-42 | the first section lets a registration on its way, with the arguments given, if and only if its pid is unlisted |
| `Effects.TestExactly` | MP2/scheduler.c:45-48 | the admission test alone: passed if and only if the 64-bit sum is below the limit; adds nothing |
| `Effects.UpdateExactly` | MP2/scheduler.c:52 | the update alone: adds the share to the counter as it is by then |
| `Effects.AppendExactly` | MP2/scheduler.c:54-69 | the last section alone: appends the task with the arguments of the registration, asleep and without a deadline |
| `Effects.YieldExactly` | MP2/scheduler.c:72-114 | for the last task of that pid: if it has not yielded before or its next deadline has not passed, it sleeps until that deadline with its timer armed, ct is NULL and the dispatcher woken; otherwise only its deadline moves; nothing else changes |
| `Effects.UnknownYield` | MP2/scheduler.c:77-85 | an unlisted pid changes nothing |
| `Effects.DeregisterExactly` | MP2/scheduler.c:117-149 | the first task of that pid leaves the list with its timer and its share; ct is cleared and the dispatcher woken if and only if it is the one ct points to |
| `Effects.UnknownDeregister` | MP2/scheduler.c:121-133 | an unlisted pid changes nothing |
| `Effects.FireExactly` | MP2/mp2_main.c:30-44 | exactly the tasks of the timer's pid become READY, the timer is spent, the dispatcher woken |
| `Effects.DispatchNobody` | MP2/mp2_main.c:63-68 | with nothing READY the current task, if any, is demoted and stays current |
| `Effects.DispatchTakesOver` | MP2/mp2_main.c:79-85 | with no current task the highest READY task runs and becomes current |
| `Effects.DispatchPreempts` | MP2/mp2_main.c:73-85 | over a current task of longer period it does so too, and that task becomes READY |
| `Effects.DispatchKeeps` | MP2/mp2_main.c:69-86 | a current task of no longer period keeps everything as it is |
| `Effects.WokenExactly` | MP2/mp2_main.c:30-56 | after a step a wake-up is pending if and only if the step is a callback, a yield in time or the deregistration of the current task, or one was pending and the step is no dispatch |
| `Effects.WokenFromBoot` | MP2/mp2_main.c:30-56 | after every run since loading: if and only if such a call has occurred since the last dispatch |
| `Admission.AdditionExact` | MP2/scheduler.c:45-52 | the 64-bit addition in the admission test never wraps, for any proc_time and period |
| `Admission.DeregisterKeepsAccount` | MP2/scheduler.c:143-144 | removing a task subtracts exactly its share; the subtraction never underflows |
| `Admission.RegisterIsBackToBack` | MP2/scheduler.c:31-70 | the atomic registration is the three sections run without interference |
| `Overlap.AdmitIsTestThenUpdate` | MP2/scheduler.c:45-52 | the one-section admission is the test with its update right behind it |
| `Overlap.FineRunsCounted` | MP2/scheduler.c:34-70 | with test and update apart, over every run total_util is the truncated utilisation of listed plus admitted tasks as a 64-bit word, and exactly that while it fits in 64 bits |
| `Overlap.LimitBrokenExactly` | MP2/scheduler.c:45-52 | a step from an exact counter below MAX_UTIL takes it to MAX_UTIL or above if and only if it is an update whose share no longer fits; every other step keeps it exact and below |
| `Overlap.BudgetKeptExactly` | MP2/scheduler.c:45-52 | from a state with room for every pending share, a step keeps it if and only if it is not a test that lets a share through on top of pending ones that leave no room for it |
| `Overlap.WithinBudgetAccounted` | MP2/scheduler.c:34-70 | over every run without such a test, with every interleaving of registration sections and whole calls, total_util is the truncated utilisation of listed plus admitted tasks, below MAX_UTIL, and no addition or subtraction wraps |
| `Overlap.WithinBudgetFromBoot` | MP2/scheduler.c:9 | the same since the module was loaded with a counter of 0 |
| `Overlap.OverdraftBreaksLimit` | MP2/scheduler.c:45-52 | after one such test the updates that are pending take the counter to MAX_UTIL or above |
| `Overlap.LockedFromBoot` | MP2/scheduler.c:45-52 | with test and update in one section the counter is exact and below MAX_UTIL over every interleaving |
| `Overlap.OverlapFreeFromBoot` | MP2/scheduler.c:45-52 | over every run since loading in which no test falls between another registration's test and its update, the counter is exact and below MAX_UTIL and its arithmetic does not wrap |
| `Overlap.BudgetExactly` | MP2/scheduler.c:45-52 | from any state with an exact counter below MAX_UTIL, letting the pending updates run keeps the counter below MAX_UTIL if and only if it has room for all pending shares |
| `Overlap.OverlapBreaksLimit` | MP2/scheduler.c:45-52 | two tested registrations whose shares do not fit together take the counter to MAX_UTIL or above |
| `Overlap.OvershootWitness` | MP2/scheduler.c:34-52 | a run from loading the module that ends with a counter of 1400000 |
| `Runs.StepKeepsInv` | MP2/scheduler.c:31-149 | every step keeps unique pids, an awake `ct`, exact timers, an exact counter and, with no wake-up pending, the rate-monotonic order |
| `Runs.ReachableWellFormed` | MP2/scheduler.c:31-149 | in every state reached by whole calls: pids unique, `ct` NULL or a listed awake task, awake tasks have yielded, timers pending exactly for sleeping tasks that yielded |
| `Runs.CallbackWakesOwner` | MP2/mp2_main.c:30-44 | where pids, `ct`, timers and order are as they should be, a timer callback turns exactly the task that armed it from SLEEPING to READY and never touches `ct` |
| `Runs.DispatchQuiets` | MP2/mp2_main.c:60-88 | a dispatch establishes the rate-monotonic order from any state |
| `Runs.QuiescentIsRateMonotonic` | MP2/mp2_main.c:30-92 | in the machine where a dispatch is one step, so that no wake-up is lost: with none pending nothing READY beats `ct` (nothing is READY if `ct` is NULL), and any number of further dispatches leaves `ct` unchanged |
| `Runs.DispatchSwitches` | MP2/mp2_main.c:60-87 | a dispatch that switches runs the highest READY task, leaves the displaced task READY and every other task as it was |
| `Duplicates.CleanExactly` | MP2/scheduler.c:34-70 | from a state where no pid is listed twice, on its way twice, or on its way while listed, a step keeps it so if and only if it neither starts nor completes a registration of a pid that has another one under way |
| `Duplicates.FineCleanExactly` | MP2/scheduler.c:34-70 | the same with the admission test apart from its update |
| `Duplicates.GuardedRunsUnique` | MP2/scheduler.c:34-70 | over every run since loading without such calls, with test and update apart, pids stay unique |
| `Duplicates.ListedFlightDoubles` | MP2/scheduler.c:66-68 | a registration under way for a listed pid, wherever between its sections it rests, lists the pid twice once it is let through, unless it is still to be tested and fails its test |
| `Duplicates.SharedFlightsDouble` | MP2/scheduler.c:34-70 | two registrations under way for one pid, wherever between their sections they rest, list it twice once they are let through, unless one is still to be tested and fails its test |
| `Duplicates.DuplicatePid` | MP2/scheduler.c:34-70 | a run from loading the module that lists one pid twice |
| `Interleaved.InterleavedNoDrift` | MP2/scheduler.c:31-149 | over every run since loading, sections of registrations interleaved, in which no registration of a pid starts or goes through while another one of it is under way: pids unique, `ct` awake, timers pending exactly for sleeping tasks that yielded, the order rate-monotonic unless a wake-up is pending, and list, deadlines and timers as the book of the run says |
| `Deadlines.NoDrift` | MP2/scheduler.c:31-149 | with whole calls, against a book computed from the calls and the clock alone: the list is the registrations that went through and were not taken back, in order and with their arguments; after m yields a deadline is the first yield plus m whole periods; a timer is pending exactly for a sleeping task that has yielded, at the end of the period its last yield in time began; the counter is the sum of the book's shares |
| `Deadlines.YieldByTheBook` | MP2/scheduler.c:88-113 | after every run a yield of a listed pid succeeds if and only if the book has no yield of it yet or the period it ends has not passed, and leaves the state the book foretells |
| `Deadlines.ArmedOnlyByYield` | MP2/scheduler.c:98-102 | only a successful yield arms a timer: the yielder's, at its new deadline, never in the past |
| `Priority.RunningBounded` | MP2/scheduler.c:102-107 | RUNNING tasks other than `ct` never outnumber the successful yields made by another task while `ct` is RUNNING; without such yields the only RUNNING task is `ct` |
| `Priority.StrayAppears` | MP2/scheduler.c:102-107 | a step adds a RUNNING task that is not `ct` if and only if it is a successful yield by another task while `ct` is RUNNING |
| `Priority.TwoRunning` | MP2/scheduler.c:105-107 | a reachable state with two RUNNING tasks |
| `Priority.DispatchIdlesExactly` | MP2/mp2_main.c:60-87 | a dispatch leaves `ct` set and not RUNNING if and only if `ct` was set and either nothing was READY, or `ct` was READY itself and no READY task has a smaller period |
| `Priority.IdleStaysIdle` | MP2/mp2_main.c:60-87 | once so, and in rate-monotonic order, further dispatches change nothing but the wake-up flag |
| `Priority.IdleReachable` | MP2/mp2_main.c:63-68 | a run from loading the module to such a state, with every dispatch in it answering a wake-up |
| `Priority.CalmSegment` | MP2/mp2_main.c:73-86 | with no successful yield and no deregistration of `ct`: `ct` stays set, every switch strictly lowers its period, and the switches are at most the other tasks listed at the start |
| `Wakeups.DispatchIsUnsplit` | MP2/mp2_main.c:54-88 | select, act and rest with no call in between are the one-step dispatch |
| `Wakeups.SelectOrders` | MP2/mp2_main.c:60 | from any state nothing READY beats the task that is about to be current after a selection |
| `Wakeups.ActKeepsOrder` | MP2/mp2_main.c:61-87 | acting on the selection keeps that order and does not repair it, whatever has become of the list and of `ct` since |
| `Wakeups.NeededExactly` | MP2/mp2_main.c:54-88 | a call while the thread is awake, its wake-up lost, keeps the order if and only if that wake-up was not needed: no timer of a task that beats the one about to be current, no clearing of `ct` while another READY task beats the one that takes over |
| `Wakeups.ActOnNobody` | MP2/mp2_main.c:63-68 | with nothing selected the action demotes whoever is current by then |
| `Wakeups.ActOnSelection` | MP2/mp2_main.c:79-85 | with no current task by then, the selected task is run, in whatever state it is |
| `Wakeups.ActOverCurrent` | MP2/mp2_main.c:73-86 | with a current task by then, the selected one takes over if and only if its period is shorter |
| `Wakeups.CallExactly` | MP2/mp2_main.c:54-60 | a call has the same effect whether the thread sleeps or is awake, but for its wake-up, which only a sleeping thread keeps |
| `Wakeups.SectionKeepsOrder` | MP2/scheduler.c:31-70 | a section of a registration that lands inside a dispatch changes nothing about the order |
| `Wakeups.RunLifts` | MP2/mp2_main.c:54-88 | every run with one-step dispatches, sections of registrations included, is a run of the split thread |
| `Wakeups.TimelyRunsQuiet` | MP2/mp2_main.c:54-88 | over every run since loading, calls and sections of registrations anywhere, in which no needed wake-up is lost, the order is rate-monotonic whenever the thread sleeps with none pending |
| `Wakeups.LostForGood` | MP2/mp2_main.c:54-88 | a needed wake-up that is lost leaves the thread asleep, unwoken and out of order after its action and sleep |
| `Wakeups.LostWakeUp` | MP2/mp2_main.c:54-88 | a run from loading the module that ends asleep, unwoken and out of order |
| `Schedulability.TruncationExact` | MP2/scheduler.c:45 | the fixed-point value is the floor of the exact one if and only if proc_time is below 2^44 |
| `Schedulability.AdmissionAccuracy` | MP2/scheduler.c:45-52 | in every state reached without an overdrawing test: n tasks let in, listed or about to be, have exact utilisation below (726662 + n)/2^20, and a newcomer is rejected only if the exact total with it reaches 726663/2^20 |
| `Schedulability.HyperbolicHolds` | MP2/scheduler.c:5-6 | every list of at most 585 tasks, each of proc_time below 2^44, that is reached without an overdrawing test passes the hyperbolic test |
| `Schedulability.LimitImpliesTest` | MP2/scheduler.c:5-6 | the same for any at most 585 tasks whose truncated shares sum to less than MAX_UTIL |
| `Schedulability.CrowdExceedsTwo` | MP2/scheduler.c:5-6 | a reachable set of 586 tasks of proc_time below 2^44 that fails it |
| `Schedulability.HyperbolicExactly` | MP2/scheduler.c:45-52 | all lists of at most n tasks, each of proc_time below 2^44, that are reached without an overdrawing test pass it if and only if n is at most 585 |
| `Schedulability.HyperbolicFrontier` | MP2/scheduler.c:45-52 | with a bound on proc_time in place of 2^44, large enough for those 586 tasks, and n at least 1: if and only if n is at most 585 and the bound at most 2^44 |
| `Schedulability.ZeroLoadsAreSafe` | MP2/scheduler.c:45-52 | the bound has to be large enough: with proc_time below 1 sets of any size pass |
| `Schedulability.ShiftedOutLoad` | MP2/scheduler.c:45 | at proc_time 2^44 one task of arbitrary load is admitted and counted as 0 |
| `Overload.TwoTasksOverload` | MP2/scheduler.c:45-52 | a run of two overlapping registrations, no addition wrapping, that lists two tasks failing the test |
| `Overload.OneTaskOverloads` | MP2/scheduler.c:45 | a run that lists a single task of load 2^44 - 1, let in because the test's addition wraps on top of two overlapping admissions |
| `Overload.UnwrappedFrontier` | MP2/scheduler.c:45-52 | when tests overlap but none wraps, the guarantee holds for lists of at most n tasks if and only if n is at most 1 |
| `Overload.OverlapFrontier` | MP2/scheduler.c:45-52 | over all runs it holds if and only if n is 0 |
| `SchedulerModule.TaskStruct.constructor` | MP2/scheduler.c:55-63 | a new structure has the address, pid, period and proc_time given, is SLEEPING and has deadline 0 |
| `SchedulerModule.Module.constructor` | MP2/mp2_main.c:20 | the state right after loading |
| `SchedulerModule.Module.Register` | MP2/scheduler.c:31-70 | performs the registration step on the heap; -1 exactly for a known pid or a failed admission test, then nothing changes; otherwise one new structure with the arguments given is appended |
| `SchedulerModule.Module.Yield` | MP2/scheduler.c:72-114 | performs the yield step; 0 exactly for a known pid whose task has not yielded before or whose next deadline has not passed, else -1 |
| `SchedulerModule.Module.Deregister` | MP2/scheduler.c:117-149 | performs the deregistration step; -1 exactly for an unknown pid; clears ct and wakes the dispatcher exactly for the current task |
| `SchedulerModule.Module.Destroy` | MP2/scheduler.c:18-28 | leaves no listed structure and no pending timer |
| `SchedulerModule.Module.TimerCallback` | MP2/mp2_main.c:30-44 | performs the callback step |
| `SchedulerModule.Module.GetHighest` | MP2/scheduler.c:152-165 | returns the structure the policy selects, NULL exactly when none is READY |
| `SchedulerModule.Module.Dispatch` | MP2/mp2_main.c:60-88 | performs the dispatch step |
| `Command.SplitToken` | MP2/mp2_main.c:143 | the strsep loop cuts at the first comma, or at the end of the text |
| `Command.ScanNumber` | MP2/mp2_main.c:145-149 | the number scan skips blanks, reads digits and reduces to the variable's width |
| `Command.Write` | MP2/mp2_main.c:129-176 | the parser performs the call the specification selects, error paths included |
| `Command.RegisterRoundTrip` | MP2/userapp.h:12-20 | parsing the echoed R line recovers any 32-bit pid and any 64-bit period and proc_time, whatever bytes follow the newline |
| `Command.YieldRoundTrip` | MP2/userapp.h:23-31 | the same for the Y line |
| `Command.DeregisterRoundTrip` | MP2/userapp.h:34-42 | the same for the D line |
| `Command.LongCommand` | MP2/mp2_main.c:142-154 | any R text of four fields or more: the three numbers of its second to fourth field |
| `Command.ShortCommand` | MP2/mp2_main.c:155-173 | any Y or D text of two fields or more: the number of its second field |
| `Command.MissingFields` | MP2/mp2_main.c:142-173 | a text with fewer fields than its command takes hands NULL to sscanf |
| `Command.OtherCommand` | MP2/mp2_main.c:140-141 | any other first character makes no call |
| `Command.ScanExactly` | MP2/mp2_main.c:145-149 | a field of blanks, digits and anything else: the value of the digits by place, reduced to the variable's width |
| `Command.ScanNothing` | MP2/mp2_main.c:145-149 | without a digit behind the blanks nothing is stored |
| `Command.CommandFits` | MP2/userapp.h:15-17 | no shell command overruns its 100-byte buffer |
| `Ring.UtilFieldIsFiveTimes` | MP3/profiler.c:24 | the UTIL cell is five times the jiffies if and only if the product by 100 fits in a signed 64-bit long |
| `Ring.PushAllRefines` | MP3/profiler.c:17-28 | after n pushes vmem_idx is n mod 131072 and each slot holds the newest sample congruent to it, or zeros |
| `Ring.NewestIsNewest` | MP3/profiler.c:25-26 | the sample a slot holds is congruent to it and no later one is |
| `Ring.VmemBuf.constructor` | MP3/profiler.c:36-37 | the buffer starts as zeros |
| `Ring.VmemBuf.PushNext` | MP3/profiler.c:18-28 | the four stores and the index update perform one push, in bounds |
| `Monitor.RoundKillsLive` | MP3/monitor.c:65-86 | each round strictly lowers the number of live cells among 0..48000 |
| `Monitor.PrintCell` | MP3/monitor.c:66-69 | one cell is printed and wiped, and the index wraps at 48000 |
| `Monitor.DrainFrom` | MP3/monitor.c:64-86 | the drain loop terminates on every buffer and touches no cell above 48000 |
| `Monitor.Run` | MP3/monitor.c:60-87 | scan and drain together print and leave what the specification says, and report the right count |
| `Pipeline.DrainRun` | MP3/monitor.c:65-86 | from an aligned position exactly the live records up to the first empty one are printed, in order, and wiped |
| `Pipeline.MonitorShows` | MP3/monitor.c:60-87 | on a buffer that shows a window of 12000 slots and the cell behind it, a monitor run prints and frees the first unbroken stretch of held slots, or that cell if no slot is held, and leaves the buffer of the freed window |
| `Pipeline.SessionRefines` | MP3/monitor.c:60-87 | over any session of batches and monitor runs, past any number of wraps, the outputs are those of that window machine |
| `Pipeline.SessionPrints` | MP3/monitor.c:61-86 | past any number of wraps, when no batch comes back to the window: the first drain prints its batch padded with zero records to 12000 or cut there; each later drain prints, in push order, the samples since the one before whose number modulo 131072 is below 12000; one that finds none prints the cell behind the window as a broken record if it is live, else nothing |
| `Pipeline.PacedSessions` | MP3/monitor.c:61-86 | the same for sessions of any length with batches of at most 119072 samples, and for any session of fewer than 131072 |
| `SampleWindow.OnePassExactly` | MP3/monitor.c:61-86 | from an empty window a batch of any size but 131072 is printed as that says if and only if it does not come back to the window once it has left it |
| `Pipeline.CompleteExactly` | MP3/monitor.c:61-86 | in a session of any length, of samples whose pid and MINOR cells are not the marker -1, each drain prints the batch in front of it, in push order, and besides only zero records the first time and at most one broken zero record when the batch is empty, if and only if at most 12000 samples are pushed |
| `Pipeline.PrintedAsOften` | MP3/monitor.c:61-86 | within that bound every record with a pid other than 0 is printed as often as it was pushed |
| `Sampler.StepConserves` | MP3/mp3_given.h:21-42 | one step moves counts between counter and snapshots and loses none but those of an exit or a wrap |
| `Sampler.RunConserves` | MP3/profiler.c:127-146 | for every pid, channel and run: accrued = collected + still in the counter + lost |
| `Sampler.CellsOfSnapshots` | MP3/profiler.c:18-28 | the MINOR and MAJOR cells of a pid add up to what was collected, UTIL to five times the CPU time |
| `Sampler.TickCovers` | MP3/profiler.c:127-146 | a tick samples the list in order, all of it and requeues itself if and only if all pids are alive |
| `Sampler.RunKeepsList` | MP3/profiler.c:62-123 | the listed pids are, in order, what the calls alone say (a registration appends an unlisted pid, a deregistration takes it out), and the work item is queued if and only if the list is non-empty and no tick has met a dead pid since it was last empty |
| `SamplerEffects.RegisterExactly` | MP3/profiler.c:62-92 | an unlisted pid goes to the end of the list with this jiffy and nothing read, and starts the sampler if it is the first; a listed one changes nothing |
| `SamplerEffects.DeregisterExactly` | MP3/profiler.c:96-123 | the first entry of the pid goes, and the last one to go stops the sampler; nothing else changes |
| `SamplerEffects.UnknownDeregister` | MP3/profiler.c:111-115 | an unlisted pid changes nothing |
| `SamplerEffects.ProcessExactly` | MP3/mp3_given.h:21-42 | start, exit and accrual touch only the counters of the process they happen to |
| `SamplerEffects.TickExactly` | MP3/profiler.c:127-146 | with n the place of the first dead pid or the length of the list: exactly n reports, the i-th with the i-th pid and its counters as they were; exactly those counters cleared; exactly those entries note jiffy and counters; queued again if and only if nobody is dead |
| `SamplerEffects.RecordExactly` | MP3/profiler.c:21-24 | the four cells of a report for every value of the counters, wrap-around of the product and of the casts included |
| `ProfilerModule.Profiler.constructor` | MP3/profiler.c:32-40 | an empty list and a zeroed buffer |
| `ProfilerModule.Profiler.Register` | MP3/profiler.c:62-92 | performs the registration step; -1 exactly for a listed pid |
| `ProfilerModule.Profiler.Deregister` | MP3/profiler.c:96-123 | performs the deregistration step; -1 exactly for an unlisted pid |
| `ProfilerModule.Profiler.GetCpuUse` | MP3/mp3_given.h:21-42 | hands out the four counters and clears them, or -1 and no change for a dead pid |
| `ProfilerModule.Profiler.WqHandler` | MP3/profiler.c:127-146 | performs one tick and pushes exactly its records, in order |
| `EndToEnd.PrintedIsAccrued` | MP3/monitor.c:61-86 | for every pid and every session of at most 12000 samples whose sums fit the cells: what the monitor prints adds up to its faults, and five times its CPU time, that are neither lost nor still counted |
| `Mapping.MmapCallback` | MP3/mp3_main.c:105-134 | the loop terminates with exactly the pages of the area installed and no other key, or with exactly those in front of the first refused one |
| `Mapping.StaysInBuffer` | MP3/mp3_main.c:115-129 | an installed area maps nothing but pages of vmem_buf if and only if it has at most 1024 pages; the callback does not check |
| `Mapping.MappingIsLinear` | MP3/mp3_main.c:105-134 | every user offset lands on the same offset of vmem_buf |
| `Mapping.MonitorCellIsKernelCell` | MP3/monitor.c:20-38 | each byte of monitor cell i, for i up to 48000, is that byte of kernel cell i, inside the 128 mapped pages |

## Left out

- Runs.ReachableWellFormed: registrations run as a whole here; with their sections interleaved the statement is false of the code (`DuplicatePid`), and InterleavedNoDrift says for which runs it holds.
- Runs.QuiescentIsRateMonotonic: a dispatch is one step here; with calls in between the statement is false of the code, and Wakeups.dfy says exactly when it holds.
- Locks, the `schedule()` call inside the locked region of `Task_yeild`, and preemption inside an entry point other than the split registration and the split dispatch: entry points are atomic.
- A deregistration of the very task the dispatching thread has selected and not yet acted on: the thread would then write to a freed structure.
- Wrap-around of `jiffies` and `next_ddl`: the clock is unbounded.
- A proof that every deadline is met: it needs a model of CPU execution; the results stop at the schedulability test.
- Kernel services (slab, workqueue timing, `sched_setscheduler`, proc files, copying to and from user space) beyond the state the modules keep.
- Draining while the kernel pushes: one monitor run is one step, since the two sides share no lock.
- A closed form of what is printed when a batch comes back to the window: there the outputs are those of the window machine (`SessionRefines`).
- The read callbacks with their `finished` flag and the init and exit plumbing.
- The text commands of MP3, which use the same parsing calls as those of MP2.
- MP1, a list of registered processes with their CPU times refreshed by a timer, and MP4, a security module that maps labels and access masks to decisions: neither is modelled.
- MP3's workload generator, plotting scripts and data files.
