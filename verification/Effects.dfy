/**
  What one event of the scheduler may change, said without its steps: the processes' threads,
  the list of registered tasks, the wake-up of the dispatcher, and the timers.
 */
module Effects {
  import opened Load
  import opened Admission
  import opened Scheduler
  import opened Options
  import opened Consistency

  // ---------------------------------------------------------------------------
  // Threads
  // ---------------------------------------------------------------------------

  /** The entry with this pid yields before its next release. */
  predicate YieldsEarly(s: Sched, e: Event, pid: int) {
    && e.Yield? && e.pid == pid && Enabled(s, e)
    && 0 < e.now < s.tasks[FindByPid(s.tasks, pid).value].nextPeriod
  }

  /**
    Outside the dispatcher, the only change to any process is that one that yields early stops
    being runnable; no policy changes.
   */
  lemma OnlyEarlyYieldsBlock(a: Arith, s: Sched, e: Event, pid: int)
    requires !e.Dispatch?
    ensures var k, z := ThreadOf(s.threads, pid), ThreadOf(Step(a, s, e).threads, pid);
      && z.realtime == k.realtime
      && z.runnable == (k.runnable && !YieldsEarly(s, e, pid))
  {
    if Enabled(s, e) && e.Yield? {
      assert s.tasks[FindByPid(s.tasks, e.pid).value].pid == e.pid;
    }
  }

  /** The pid of the current task. */
  function CurrentPid(s: Sched): Option<int> {
    if s.curr.Some? && s.curr.value < |s.tasks| then Some(s.tasks[s.curr.value].pid) else None
  }

  /**
    A round of the dispatcher touches no process unless it changes the current task.  Then the
    new one is runnable at real-time policy, and the former one loses the policy and nothing
    else: it stays as runnable as it was.
   */
  lemma DispatchSwitchesThreads(a: Arith, s: Sched, pid: int)
    requires Consistent(s) && s.wake
    ensures var z := Step(a, s, Dispatch);
      var k, m := ThreadOf(s.threads, pid), ThreadOf(z.threads, pid);
      if z.curr == s.curr then m == k
      else if CurrentPid(z) == Some(pid) then m.runnable && m.realtime
      else m.runnable == k.runnable && m.realtime == (k.realtime && CurrentPid(s) != Some(pid))
  {
    DispatchInstallsChoice(s);
  }

  /** A preempted process stays runnable. */
  lemma PreemptedStaysRunnable(a: Arith, s: Sched, pid: int)
    requires Consistent(s) && s.wake && ThreadOf(s.threads, pid) == Thread(true, true) && CurrentPid(s) == Some(pid)
    requires CurrentPid(Step(a, s, Dispatch)) != Some(pid)
    ensures ThreadOf(Step(a, s, Dispatch).threads, pid) == Thread(true, false)
  {
    DispatchSwitchesThreads(a, s, pid);
  }

  // ---------------------------------------------------------------------------
  // The list
  // ---------------------------------------------------------------------------

  datatype Registration = Registration(pid: int, claim: Claim)

  function Registered(tasks: seq<Task>): (rs: seq<Registration>)
    ensures |rs| == |tasks| && forall i :: 0 <= i < |tasks| ==> rs[i] == Registration(tasks[i].pid, tasks[i].claim)
  {
    seq(|tasks|, i requires 0 <= i < |tasks| => Registration(tasks[i].pid, tasks[i].claim))
  }

  /** A registration goes to the end of the list if it is accepted, and otherwise leaves the module as it was. */
  lemma RegistersAtTheEnd(a: Arith, s: Sched, pid: int, c: Claim)
    ensures var z := Step(a, s, Register(pid, c));
      if Admit(a, s.ledger, c).accepted
      then Registered(z.tasks) == Registered(s.tasks) + [Registration(pid, c)] && z.tasks[..|s.tasks|] == s.tasks
        && z.curr == s.curr && z.wake == s.wake
      else z == s && Admit(a, s.ledger, c).ledger == s.ledger
  {
    var z := Step(a, s, Register(pid, c));
    if Admit(a, s.ledger, c).accepted {
      assert z.tasks == s.tasks + [Task(pid, c, Sleeping, 0, None)];
      assert Registered(z.tasks) == Registered(s.tasks) + [Registration(pid, c)];
    }
  }

  /** A departure takes out the first entry of the process and no other. */
  lemma {:induction false} FirstIsFirst(tasks: seq<Task>, pid: int, j: nat)
    requires j < |tasks| && tasks[j].pid == pid
    ensures FindByPid(tasks, pid).Some? && FindByPid(tasks, pid).value <= j
  {
    if tasks[0].pid != pid {
      FirstIsFirst(tasks[1..], pid, j - 1);
    }
  }

  lemma LeavesAtTheFirst(a: Arith, s: Sched, pid: int, i: nat)
    requires i < |s.tasks| && s.tasks[i].pid == pid && forall j :: 0 <= j < i ==> s.tasks[j].pid != pid
    ensures Step(a, s, Deregister(pid)).tasks == s.tasks[..i] + s.tasks[i + 1..]
  {
    FirstIsFirst(s.tasks, pid, i);
  }

  lemma OthersStayRegistered(a: Arith, s: Sched, e: Event)
    requires !e.Register? && !e.Deregister?
    ensures Registered(Step(a, s, e).tasks) == Registered(s.tasks) && Step(a, s, e).ledger == s.ledger
  {
    if Enabled(s, e) && e.Dispatch? {
      assert |Step(a, s, e).tasks| == |s.tasks|;
    }
  }

  // ---------------------------------------------------------------------------
  // The dispatcher's wake-up
  // ---------------------------------------------------------------------------

  /** Every yield, expiry and departure wakes the dispatcher, its own round ends the wake-up, a registration leaves it. */
  lemma Wakes(a: Arith, s: Sched, e: Event)
    requires Enabled(s, e)
    ensures Step(a, s, e).wake <==> e.Yield? || e.Fire? || e.Deregister? || (e.Register? && s.wake)
  {
  }

  // ---------------------------------------------------------------------------
  // Sleep and timers
  // ---------------------------------------------------------------------------

  /**
    Outside registration and departure a task falls asleep by its early yield, which arms its
    timer, and wakes by its activation or the expiry of its timer, which clears it; all others
    sleep, or do not, as before, with the same timer and the same next release.
   */
  lemma SleepersAfter(a: Arith, s: Sched, e: Event, j: nat)
    requires Consistent(s) && Enabled(s, e) && !e.Register? && !e.Deregister? && j < |s.tasks|
    ensures |Step(a, s, e).tasks| == |s.tasks|
    ensures var t, u := s.tasks[j], Step(a, s, e).tasks[j];
      if e.Yield? && FindByPid(s.tasks, e.pid) == Some(j) then
        && (u.state == Sleeping <==> 0 < e.now < t.nextPeriod || (t.state == Sleeping && t.nextPeriod > 0))
        && u.nextPeriod == Interval(t.claim.period) + (if t.nextPeriod == 0 then e.now else t.nextPeriod)
        && u.timer == if 0 < e.now < t.nextPeriod then Some(t.nextPeriod) else t.timer
      else if e.Fire? && e.index == j then
        u.state != Sleeping && u.timer == None && u.nextPeriod == t.nextPeriod
      else
        (u.state == Sleeping <==> t.state == Sleeping) && u.timer == t.timer && u.nextPeriod == t.nextPeriod
  {
    if e.Dispatch? {
      DispatchInstallsChoice(s);
    }
  }
}
