# Kernel modules MP2 and MP3: a verified model

This project models two kernel modules and their user programs in Dafny and proves what they promise.

**MP2, the rate-monotonic scheduler.** The module keeps a list of periodic tasks (SLEEPING, READY or RUNNING, a
`next_period`, a timer), a current-task pointer, a dispatcher thread, and one fraction of unsigned integers that
stands for total utilization. The main result is the promise of its admission test: a task set that the test has let in
meets all its deadlines. It is proved in five stages, for tasks that come and go, and shown to fail when a task may leave and
come back at once.

1. `Admission`: the fraction is the exact sum of C/P over the list, after every sequence of registrations and
   deregistrations, and the 32- and 64-bit arithmetic agrees with the exact one within stated bounds.
2. `HyperbolicBound`: a sum of at most 0.693 gives a product of (1 + C/P) of at most 2, for lists of every length.
3. `TimeDemand`: a product of at most 2 gives, for each period, an instant by which the work released until then
   is done when all tasks start together (the hyperbolic form of the Liu-Layland rate-monotonic test).
4. `Deadlines`: hence, for every pattern of jobs at least one period apart, every job is done within its period.
5. `ClosedLoop`: the module's own steps (registration, first yield, later yield, timer expiry, dispatch, deregistration)
   in a loop with the tasks and a clock of milliseconds, for jobs of any length up to the claim. A jiffy is any whole
   number of milliseconds. Rounding to jiffies and an activation within a jiffy shorten the time a job has; if the claims
   pass the limit with the time that is left, no task ever yields after its `next_period`. With HZ = 100, periods of whole
   jiffies and activations at the start of a jiffy this is the module's own test; for periods and activations of any kind
   18 milliseconds less of each period suffice (`MarginIsStartable`). `LoopProgress` shows that the loop can always go on
   to the next millisecond, `LoopWork` what each move does to the tasks' work, `LoopRuns` that the loop is a run of the module.

Around this, `Consistency`, `Releases` and `Priority` prove what every run of the scheduler keeps, `Effects` what one event may change, `Jiffies` and `Lone` relate
its time to milliseconds, `Commands` and `Listing` prove that the text interfaces undo each other, and `EntryPoint` connects text to steps.

**MP3, the page-fault profiler and its monitor.** A self-requeuing work item appends four-word samples to a shared
buffer; a user program drains it. `Sampler` proves what a buffer of any size holds in every state and when the module
writes beyond it, `Monitor` that a drain prints exactly the session, and `Conservation` that every fault and tick is
accounted for, up to the printed rows.

`Mp2`, `Mp3`, `Monitor`, `Commands` and `Listing` hold the code in its own form (classes, arrays, loops). Each method
is proved equal to a step of a state machine over values (`Scheduler`, `Sampler`) or to a function of its input, and the
results over whole runs are about those. A run is any sequence of events; an event that cannot occur leaves the state
as it is.

## Where the code does not do what it says

Each is a lemma with a concrete input, beside a lemma that says when the property does hold.

- A registration with period 0 and computation 0 is accepted and erases the fraction (`ZeroPeriodForgets`). As long as the
  arithmetic does not wrap, an accepted claim keeps a loaded fraction loaded if and only if its period is positive
  (`LoadSurvivesIff`). With wrap-around neither half holds: three claims with positive periods leave a fraction of zero
  (`PositivePeriodsForget`), and a claim with period 0 leaves a positive numerator (`ZeroPeriodKeepsALoad`). A registration
  line without its newline and with a one-digit computation is read as the claim (0, 0) (`RegisterWithoutNewline`,
  `BareLineForgetsTheLoad`), and so is one with a pid only (`RegisterWithPidOnly`).
- `computation * 1000` wraps in 32 bits, so a share above two million is accepted (`WrapAdmitsOverload`). With a zero
  numerator no period lets an overload in if and only if `computation * 1000` does not wrap (`NoOverloadIff`), and for all
  claims up to b the decision is the exact one if and only if 1000 * b is below 2^32 (`FirstIsIdealIff`). Within the bounds
  of `Bounded`, no product of a run wraps (`MachineIsIdeal`).
- Periods are converted with USER_HZ, which is 100, and added to `jiffies`, which advance at HZ; and they are counted from
  the start of the jiffy of activation. Where HZ is at least USER_HZ, the release interval equals the declared period if and
  only if HZ is 100 and the period is a multiple of 10 ms that does not wrap (`IntervalIsExactIff`). A task alone on the
  processor is in time for ever if and only if its claim, plus what has passed of the jiffy when it is activated, fits its
  jiffies (`LoneTaskInTimeIff`). So with HZ = 100, 13 of every 19 ms is admitted and falls further behind with every job, and
  6 of every 10 ms is late when activated in the middle of a jiffy; with HZ = 250, 600 of every 1000 ms is late for ever
  (`AdmittedYetLate`). For lists of tasks, `Startable` is enough (`NoYieldIsLate`).
- A task that leaves keeps real-time policy; if it registers again it is listed, runnable at SCHED_FIFO 99 and not
  current (`StalePolicyAfterReentry`). A registration keeps the policies in order if and only if its pid is not listed and
  its process is not both runnable and real-time (`EntryIsCleanIff`).
- Admission looks only at the list of the moment. A process that leaves after each job and registers again is accepted
  every time and keeps the processor for ever, while another admitted process never gets it (`ReentryStarves`). Deadlines are
  met if what a task frees by leaving is given away again only in two ways (`Return` and `Forget` in `ClosedLoop`): to a task of
  the same interval, with at most the same computation, whose first yield comes no sooner than a period after the last job
  of the task that left; or to anyone, once the processor has been idle, when the module's own test is enough again
  (`AdmissionGuards`).
- The entry of a process that died is added to every later sample (`DeadProcessCountedAgain`), even if nothing but uninitialized
  memory was ever in it (`JunkIsCounted`); a sample conserves the
  counts if and only if no dead entry holds a stale value (`SampleConservesIff`).
- The module takes its 512000 bytes to be 128000 words. It stays within its buffer in every run if and only if a word
  takes at most four bytes (`WordsOfFourBytesIff`). With eight bytes the 16000th sample of a session puts its sentinel
  beyond the buffer (`EightByteWordsOverrun`).
- MP3/mp3.c:50 speaks of a reset when a process unregisters, and the offset is reset, but the mark of a full buffer is not.
  The mark is set if and only if some session so far has had 32000 samples (`FullIff`, for example `FullAfter`). From then on
  no session records anything (`FullIsForever`); before, every work item records its sample (`RecordsIff`).
- Every listing of n processes fits the 2048-byte buffers of the read callback if and only if n is at most 170
  (`ListingFitsIff`); a run of 171 accepted registrations reaches one that does not (`CrowdedListing`).

## Model

| member | source | states |
|---|---|---|
| Admission.AdmitIsExact | MP2/mp2.c:133-151 | with an exact fraction, and in unbounded arithmetic or in the machine's within the stated room, a claim is accepted if and only if the true sum of C/P plus its share is at most 693/1000, and the fraction stays exact |
| Admission.RetireIsExact | MP2/mp2.c:124-132 | removal keeps the fraction exact in either arithmetic; the numerator is zero afterwards if and only if the remaining sum is zero |
| Admission.LoadSurvivesIff | MP2/mp2.c:143-150 | where no product wraps, an accepted claim leaves a positive numerator positive if and only if its period is positive |
| Admission.PositivePeriodsForget | MP2/mp2.c:136-150 | with wrap-around three accepted claims with positive periods leave (0, 0), and a further one takes the sum above the limit |
| Admission.ZeroPeriodKeepsALoad | MP2/mp2.c:136-150 | with wrap-around an accepted claim with period 0 leaves the numerator 2^61 |
| Admission.ZeroPeriodForgets | MP2/mp2.c:136-150 | in either arithmetic, a claim of (0, 0) between two claims of 693/1000 lets both in |
| Admission.AdmitRefines | MP2/mp2.c:136-150 | with room for one more factor the fixed-width registration decides and stores what unbounded arithmetic does |
| Admission.RetireRefines | MP2/mp2.c:124-132 | the same for removal |
| Admission.WrapAdmitsOverload | MP2/mp2.c:138-142 | 1000 * 4294968 wraps in 32 bits and the claim is accepted against a period of 2 |
| Admission.NoOverloadIff | MP2/mp2.c:136-142 | with a zero numerator, no 32-bit period lets a computation above 693/1000 of it in if and only if the computation times 1000 does not wrap |
| Admission.FirstIsIdealIff | MP2/mp2.c:136-142 | for all claims up to b, the first registration decides and stores what unbounded arithmetic does if and only if 1000 * b is below 2^32 |
| Admission.HorizonWithinLimit | MP2/mp2.c:119-151 | over a horizon that all periods divide, the jobs' total work is at most 693/1000 of it |
| HyperbolicBound.LimitIsHyperbolic | MP2/mp2.c:133-148 | a sum of shares of at most 0.693 bounds the product of (1 + share) by 2, for every list |
| TimeDemand.DemandIsMet | MP2/mp2.c:119-120 | a product of at most 2 gives an instant, no later than the longest period, that covers all work released before it |
| Deadlines.DeadlineMet | MP2/mp2.c:119-120 | under rate-monotonic service, work handed to any of the claims up to a tick is done within one period of that tick |
| Consistency.PickIsChoice | MP2/mp2.c:354-373 | the dispatcher's scan finds the first listed among the awake tasks of smallest period, and nothing if and only if none is eligible |
| Consistency.AlwaysConsistent | MP2/mp2.c:96-395 | in every reachable state RUNNING means current, timers are pending exactly for activated sleepers, a never-activated task sleeps, and either a dispatcher wake-up is outstanding or the current pointer is the rate-monotonic choice |
| Consistency.DispatchInstallsChoice | MP2/mp2.c:352-391 | one round of the dispatcher installs the choice and changes nothing else about who sleeps |
| Consistency.DispatchIsIdempotent | MP2/mp2.c:380-385 | a second round changes nothing |
| Utilization.AlwaysAccounted | MP2/mp2.c:120-264 | with positive periods, in unbounded arithmetic or in the machine's within the bounds, after every sequence of events the fraction is exact and the sum of C/P is at most 0.693 |
| Utilization.HistoryDoesNotMatter | MP2/mp2.c:120-264 | in either arithmetic, two histories that leave the same claims in any order decide every further claim alike |
| Utilization.MachineIsIdeal | MP2/mp2.c:41-151 | for claims of at most b and few enough factors in the denominator, a fixed-width run and an unbounded run reach the same state |
| Utilization.FewCallsAreBounded | MP2/mp2.c:41-151 | n calls with 2000 * b^n below 2^64 and 1000 * b below 2^32 satisfy the bounds |
| Utilization.ReachableLoad | MP2/mp2.c:119-154 | every list reached within the bounds has an exact fraction, a sum of at most 0.693, a product of at most 2, and fits every common horizon |
| Utilization.AdmittedTasksMeetDeadlines | MP2/mp2.c:119-154 | with the dispatcher's choice served at every tick, every task of a reachable list is done with its work within one period, for every pattern of jobs |
| Releases.ReleasesDoNotDrift | MP2/mp2.c:226-243 | after k yields next_period is the activation time plus k intervals, whatever the yield times, and every pending expiry is such a point and was armed before it was due |
| Releases.YieldIsRecorded | MP2/mp2.c:226-243 | the history behind this holds the moment of the first yield, the number of yields, and the moment at which the timer was armed |
| Jiffies.IntervalIsExactIff | MP2/mp2.c:229-242 | for HZ of at least USER_HZ the interval is never longer than the declared period, and as long if and only if HZ is USER_HZ and the period is a multiple of 10 ms that does not wrap |
| Lone.LoneTaskInTimeIff | MP2/mp2.c:215-243 | for jiffies of any length, a task alone on the processor that always uses its claim finishes every job by next_period if and only if the claim plus the part of the activation jiffy gone by fits the jiffies of its period |
| Lone.BacklogGrows | MP2/mp2.c:226-243 | with a claim beyond its jiffies, the n-th job is late by n times the excess and the part of the activation jiffy |
| Lone.AdmittedYetLate | MP2/mp2.c:226-243 | 13 of 19 ms is admitted and every job is late; 6 of 10 ms is admitted and late if activated within a jiffy, in time if not; with jiffies of 4 ms, 600 of 1000 ms is admitted and every job is late |
| Priority.OnlyCurrentIsRealTime | MP2/mp2.c:204-345 | with clean entries, a listed process is runnable at SCHED_FIFO 99 if and only if it is the current one |
| Priority.EntryIsCleanIff | MP2/mp2.c:157-180 | an accepted registration keeps pids distinct and real-time policy to running tasks if and only if the pid is unlisted and its process is not both runnable and real-time |
| Priority.StalePolicyAfterReentry | MP2/mp2.c:250-263 | a process that leaves while running and registers again is runnable at SCHED_FIFO 99 without being current |
| Effects.OnlyEarlyYieldsBlock | MP2/mp2.c:157-264 | outside the dispatcher no policy changes, and the only process that stops being runnable is one that yields before its next_period |
| Effects.DispatchSwitchesThreads | MP2/mp2.c:326-391 | a round that changes the current task makes the new one runnable and real-time and takes the policy, not the runnability, from the former one; it touches no other process |
| Effects.PreemptedStaysRunnable | MP2/mp2.c:338-345 | a preempted process is runnable at normal policy |
| Effects.RegistersAtTheEnd | MP2/mp2.c:157-180 | an accepted registration goes to the end of the list and leaves the dispatcher asleep; a rejected one leaves the module as it was |
| Effects.LeavesAtTheFirst | MP2/mp2.c:250-264 | a departure takes out the first entry with the pid and no other |
| Effects.OthersStayRegistered | MP2/mp2.c:96-391 | no other event changes pids, claims or the fraction |
| Effects.Wakes | MP2/mp2.c:96-391 | the dispatcher is woken by exactly the yields, expiries and departures |
| Effects.SleepersAfter | MP2/mp2.c:96-247 | for each event, which tasks sleep afterwards, with which timer and next release |
| ClosedLoop.LoopInTime | MP2/mp2.c:96-395 | for jiffies of any length, periods and activations of any kind, every state of every loop of a list whose claims pass the limit in the time left is in time, through registrations, departures at any moment and re-use of what they free |
| ClosedLoop.NoYieldIsLate | MP2/mp2.c:232-243 | in such a loop no yield comes after next_period, for jobs of any number of milliseconds up to the claim |
| ClosedLoop.JobsMeetDeadlines | MP2/mp2.c:119-120 | in such a loop every job is done within its interval less the slack, also one of a task that has left |
| ClosedLoop.AdmittedLoopInTime | MP2/mp2.c:119-154 | with HZ = 100, whole jiffies and aligned activations, every list the module admits within the bounds is such a list |
| ClosedLoop.MarginIsStartable | MP2/mp2.c:226-243 | with HZ = 100 and any periods and activations, a list is such a list if its claims pass the limit with 18 ms less of period |
| ClosedLoop.CutEffect | MP2/mp2.c:250-264 | dropping what a departing task has left of its job leaves the past rate-monotonic and the other tasks' work as it was |
| LoopProgress.TickIsReachable | MP2/mp2.c:96-395 | from every state in time, moves of the same millisecond lead to the next tick |
| LoopRuns.MovesAreEvents | MP2/mp2.c:96-264 | each move of the loop is a step of the scheduler |
| LoopRuns.LoopIsARun | MP2/mp2.c:96-395 | the scheduler of a loop is the scheduler after a run of the module |
| LoopRuns.AdmissionGuards | MP2/mp2.c:119-164 | with whole jiffies, and nobody gone since the start or the last idle moment, what the loop demands of a registration is exactly what the module's own test decides |
| LoopWork.ActivationBringsJob | MP2/mp2.c:226-231 | a first yield of a rested slot gives its task work w, for every w up to the claim, and leaves every other task's work as it was |
| LoopWork.ExpiryBringsJob | MP2/mp2.c:96-105 | so does the expiry of a timer that is due |
| LoopWork.LateYieldBringsJob | MP2/mp2.c:232-243 | so does a yield exactly at next_period |
| LoopWork.EarlyYieldBringsNothing | MP2/mp2.c:235-242 | an earlier yield puts the task to sleep and changes nobody's work |
| LoopWork.TickWorksOff | MP2/mp2.c:326-335 | a millisecond takes one unit off the work of the current task, which has some, and none off any other |
| LoopWork.DepartureDropsWork | MP2/mp2.c:250-264 | a departure leaves no work of the departing task and all of every other |
| LoopWork.OthersKeepWork | MP2/mp2.c:157-391 | registrations and dispatcher rounds change nobody's work |
| LoopWork.RegistrationJoins | MP2/mp2.c:157-180 | an accepted registration joins the loop with a slot of its own and no work |
| Starvation.ReentryStarves | MP2/mp2.c:157-264 | in the machine's arithmetic, after any number of rounds of leaving and registering again, one process has the processor and another, admitted and awake, still waits for its first job |
| Mp2.Module.constructor | MP2/mp2.c:434-442 | the module starts with an empty list, a zero fraction and the dispatcher woken |
| Mp2.Module.AdmissionControl | MP2/mp2.c:120-154 | the two words of the fraction and the return code are those of the admission function, for both flags |
| Mp2.Module.RegEntry | MP2/mp2.c:157-180 | performs the registration step; returns 0 if and only if an entry was added |
| Mp2.Module.FindByPid | MP2/mp2.c:183-195 | returns the first entry with the pid, or null if none has it |
| Mp2.Module.SetTaskSleep | MP2/mp2.c:198-211 | performs the sleep step on the first entry with the pid and returns 1, or changes nothing and returns 0 |
| Mp2.Module.YieldEntry | MP2/mp2.c:215-247 | performs the yield step: activation, sleep until the next release, or a late yield |
| Mp2.Module.TmCallback | MP2/mp2.c:96-105 | performs the expiry step |
| Mp2.Module.DeregEntry | MP2/mp2.c:250-264 | performs the deregistration step and returns 0, or changes nothing and returns 1 |
| Mp2.Module.FreeOne | MP2/mp2.c:108-117 | unlinks exactly the given entry; the current pointer keeps its target |
| Mp2.Module.SetNewTask | MP2/mp2.c:326-335 | makes the entry current, RUNNING and real-time |
| Mp2.Module.SetOldTask | MP2/mp2.c:338-345 | returns the entry to READY and normal policy |
| Mp2.Module.SelectNext | MP2/mp2.c:354-373 | the scan loop returns the choice of the state machine |
| Mp2.Module.DispatchRound | MP2/mp2.c:352-391 | performs one dispatch step |
| Mp2.LookupAgrees | MP2/mp2.c:183-195 | the lookup of the state machine is the first entry with the pid, in both directions |
| Commands.FindCharIn | MP2/mp2.c:267-273 | returns the first position of the character in the string from the start on, or -1 |
| Commands.MyWrite | MP2/mp2.c:278-300 | parses the buffer in place to the command that the callback dispatches, and leaves the buffer text as received |
| Commands.RegisterRoundTrip | MP2/userapp.c:61-68 | parsing the printed R line gives back pid, period and computation |
| Commands.YieldRoundTrip | MP2/userapp.c:44-49 | parsing the printed Y line gives back the pid |
| Commands.DeregisterRoundTrip | MP2/userapp.c:52-58 | parsing the printed D line gives back the pid |
| Commands.RegisterWithoutNewline | MP2/mp2.c:284-300 | without the newline the R line is understood if and only if the computation has two digits; otherwise it registers (0, 0, 0) |
| Commands.RegisterNegativePeriod | MP2/mp2.c:287-304 | a negative period registers the unsigned number with the same bits |
| Commands.TwoNumbersAreNone | MP2/mp2.c:285-300 | with two numbers neither is read and the command goes to process 0 |
| Commands.RegisterWithPidOnly | MP2/mp2.c:288-291 | an R line with a pid only registers that process with (0, 0) |
| Commands.OtherLettersDoNothing | MP2/mp2.c:282-313 | text is no command if and only if its first letter is none of R, Y, D |
| EntryPoint.WriteCallback | MP2/mp2.c:276-316 | parses the buffer, calls the entry point on the module, and leaves the module as the scheduler's step for the command does, the buffer text as received |
| EntryPoint.ClientLinesAct | MP2/mp2.c:301-313 | the client's three lines perform the three steps |
| EntryPoint.OtherTextDoesNothing | MP2/mp2.c:301-313 | text with another first letter leaves the scheduler as it was |
| EntryPoint.ForExample | MP2/userapp.c:44-68 | the client's three lines and a listing of two processes, character by character |
| EntryPoint.BareLineForgetsTheLoad | MP2/mp2.c:284-304 | a bare one-digit R line is accepted in every state and erases the fraction |
| EntryPoint.CrowdedListing | MP2/mp2.c:65-87 | more than 170 accepted registrations with a twelve-character line reach a listing longer than the buffers |
| Listing.MyRead | MP2/mp2.c:61-93 | in two buffers of 2048 bytes, builds the count, the pids one per line, and the NUL; nothing for a read from a later offset |
| Listing.ListingFitsIff | MP2/mp2.c:65-87 | every listing of n processes fits the buffers if and only if n is at most 170 |
| Listing.Check | MP2/userapp.c:71-91 | returns the number in the first line, and 0 if and only if the pid is read in some later line |
| Listing.CountIsRead | MP2/userapp.c:77-79 | on the module's listing that number is the number of listed processes |
| Listing.CheckFindsListed | MP2/userapp.c:71-91 | on the module's listing, a pid is read if and only if it is listed; only 0 is also read from an empty one |
| Sampler.AlwaysSound | MP3/mp3.c:85-221 | for a buffer of any size, in every reachable state it holds the session's samples in order with the sentinel behind, and a work item is queued exactly as the list and the full mark demand |
| Sampler.WorkTouches | MP3/mp3.c:109-123 | a work item overruns if and only if one of the words it writes lies beyond the buffer, and changes no other word |
| Sampler.WorkStaysInBoundsIff | MP3/mp3.c:109-123 | in every run, the words a work item writes lie within the buffer if and only if the session has fewer samples than the buffer can take |
| Sampler.NeverOverrunsIff | MP3/mp3.c:31-33 | no run writes beyond the buffer if and only if it has 128000 words |
| Sampler.WordsOfFourBytesIff | MP3/mp3.c:31-33 | for 512000 bytes that is the case if and only if a word takes at most four |
| Sampler.SampleIsTimed | MP3/mp3.c:98-116 | in every run, the first word that a sample writes is the time at which the work item runs |
| Sampler.SessionTimes | MP3/mp3.c:98-116 | the samples of a session carry the times of its work items, in order |
| Sampler.QueuedAfter | MP3/mp3.c:88-215 | for each event, whether a work item is queued afterwards |
| Sampler.EightByteWordsOverrun | MP3/mp3.c:109-123 | with 64000 words, 15999 samples stay in bounds and sample 16000 does not |
| Sampler.FullIsForever | MP3/mp3.c:88-122 | after the full mark, whatever happens, the mark stays and nothing more is recorded |
| Sampler.FullIff | MP3/mp3.c:117-122 | in every run the mark is set if and only if some session so far has had 32000 samples |
| Sampler.RecordsIff | MP3/mp3.c:88-124 | in a buffer of 128000 words a work item appends its sample if and only if no session so far has had 32000 samples, and otherwise records nothing |
| Sampler.FullAfter | MP3/mp3.c:117-122 | in the run of one process sampled over and over, the mark is set by sample 32000 and not before |
| Conservation.CollectSums | MP3/mp3.c:99-106 | a sample is the residue of the listed processes, each once, plus what dead entries still hold |
| Conservation.SampleWords | MP3/mp3.c:98-116 | the four words written are the time, and for minor faults, major faults and processor time in this order the residue and what dead entries hold |
| Conservation.SampleConservesIff | MP3/mp3_given.h:27-48 | a sample moves exactly the residue into the record if and only if no dead entry holds a stale value, and leaves no residue |
| Conservation.DeadProcessCountedAgain | MP3/mp3_given.h:30-47 | register, seven faults, a sample, death, another sample: both samples record the seven |
| Conservation.JunkIsCounted | MP3/mp3.c:180-181 | a process that dies before its first sample adds what was in memory when its entry was allocated |
| Conservation.EverythingBooked | MP3/mp3.c:97-217 | over every run, recorded sums, residue, and what unregistered and dying processes took along equal what came under observation and what dead entries added again |
| Conservation.EverythingCountedOnce | MP3/mp3.c:97-217 | with listed processes alive, recorded sums, residue and what unregistered processes carried off equal what came under observation |
| Conservation.SessionIsBooked | MP3/mp3.c:109-117 | what was recorded is what earlier sessions recorded plus the session's samples |
| Monitor.Search | MP3/monitor.c:97-98 | finds the first word below 48000 that is not a sentinel, or 48000 |
| Monitor.DrainFrom | MP3/monitor.c:100-122 | from any start and content the loop ends; below 48000 it prints the rows up to the first that starts with a sentinel, at most once around, and blanks exactly the words read |
| Monitor.Drain | MP3/monitor.c:97-123 | the whole program, including the start at 48000, the reported count, and the buffer it leaves: exactly the words read are sentinels, all others as before |
| Monitor.PrintsSession | MP3/monitor.c:91-122 | a drain of a buffer that holds a session starts at 0 and prints exactly the first 12000 samples or all |
| Monitor.DrainAfterSession | MP3/monitor.c:97-123 | for every buffer larger than the ring, after every run of the module within it, a drain prints the session whole and in order, reports the number, and blanks exactly the words printed |
| Monitor.PrintedTimes | MP3/monitor.c:100-122 | each printed row starts with the time at which its work item ran |
| Monitor.PrintedCountsConserved | MP3/monitor.c:100-122 | over every run, the books extend to the printed rows of a session of at most 12000 samples |
| Mp3.Module.constructor | MP3/mp3.c:319-328 | the module starts with nothing listed, nothing queued and offset 0 |
| Mp3.Module.GetCpuUse | MP3/mp3_given.h:27-48 | copies and zeroes each of the four counters of a living process; a dead one's entry stays |
| Mp3.Module.GetByPid | MP3/mp3.c:72-82 | finds the first entry with the pid |
| Mp3.Module.RegEntry | MP3/mp3.c:177-196 | performs the registration step; returns 1 if the process does not exist |
| Mp3.Module.UnregEntry | MP3/mp3.c:199-221 | performs the unregistration step |
| Mp3.Module.Accumulate | MP3/mp3.c:97-106 | every entry is read in turn and the sums are those of the sample |
| Mp3.Module.WriteSample | MP3/mp3.c:109-116 | the loop writes the four words at the offset and nothing else |
| Mp3.Module.WorkqueueCallback | MP3/mp3.c:85-127 | performs the work step, for a buffer of any size in which what it writes fits; the word at the offset is the present time |

## Left out

- Interleavings inside one callback, and locks: each entry point is one step. The lock macros of MP2 are empty, and the not-found path of MP3's unregistration returns with its lock held, after which the module would stop.
- Other ways to re-use what a task freed by leaving: `Return` and `Forget` are two that keep the deadlines, `ReentryStarves` one that does not; whether there are harmless ways between is not decided.
- ClosedLoop.MarginIsStartable: gives a sufficient margin; the exact condition for a list of tasks is not given, since the utilization limit itself is only sufficient.
- Utilization.MachineIsIdeal: gives a sufficient bound for runs; fixed-width arithmetic can agree with the unbounded one beyond it. For the first registration the bound is exact (`FirstIsIdealIff`).
- Time spent in the dispatcher and in the kernel, and jobs longer than claimed. In the closed loop a jiffy and a job are whole numbers of milliseconds (so HZ divides 1000), nothing is activated in the first jiffy, and intervals do not wrap in 32 bits.
- A yield for a process that is not listed, and processes without a kernel structure: the source dereferences a null pointer, so `YieldEntry` requires a listed process, and every pid counts as a living process in MP2.
- A write of fewer than two characters: the source then reads beyond its buffer.
- Wake-ups and blocking of processes by anything but the module, which `Priority` does not model.
- Mp3.Module.WorkqueueCallback: requires that what it writes fits the buffer; what happens after a write beyond it is not modelled. Likewise `MyRead` requires a listing that fits.
- The internals of kstrtoint, sprintf, fgets and sscanf are modelled for decimal integers only.
- Wrap-around of process counters, of sample words and of `next_period` at 64 bits: these are unbounded numbers. Words of the buffer are integers and timestamps are not negative, so no timestamp equals the sentinel.
- The user program touches the buffer only while no process is registered, as the repository's scripts do; it may then write anything.
- Module loading and unloading, proc and character devices, memory mapping, slab and allocation failure, and debug output.
- MP1 and MP4: a list with a counter, and a small permission table; they would add easy members only. MP2/mp2_dump.c, MP3/work.c, scripts and data are not part of this model.
