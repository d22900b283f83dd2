/**
  At most one listed task competes at real-time priority.

  The result needs what the module does not check: that a process registers once at a time,
  and that it does not enter runnable at real-time priority.
 */
module Priority {
  import opened Load
  import opened Admission
  import opened Scheduler
  import opened Options
  import opened Consistency

  ghost predicate DistinctPids(tasks: seq<Task>) {
    forall i, j :: 0 <= i < j < |tasks| ==> tasks[i].pid != tasks[j].pid
  }

  /** A process can run at SCHED_FIFO 99 exactly if its task is RUNNING, and a slept task cannot run. */
  ghost predicate ThreadAgrees(t: Task, k: Thread) {
    && (CompetesNow(k) <==> t.state == Running)
    && (t.nextPeriod > 0 && t.state == Sleeping ==> !k.runnable)
  }

  ghost predicate ThreadsAgree(s: Sched) {
    && DistinctPids(s.tasks)
    && forall i :: 0 <= i < |s.tasks| ==> ThreadAgrees(s.tasks[i], ThreadOf(s.threads, s.tasks[i].pid))
  }

  predicate Unlisted(s: Sched, pid: int) {
    forall i :: 0 <= i < |s.tasks| ==> s.tasks[i].pid != pid
  }

  predicate CompetesNow(k: Thread) {
    k.runnable && k.realtime
  }

  /** A registration is clean if its pid is not listed and its process does not compete at real-time priority. */
  predicate CleanEntry(s: Sched, e: Event) {
    e.Register? ==> Unlisted(s, e.pid) && !CompetesNow(ThreadOf(s.threads, e.pid))
  }

  ghost predicate CleanRun(a: Arith, threads: map<int, Thread>, es: seq<Event>) {
    forall n :: 0 <= n < |es| ==> CleanEntry(Run(a, threads, es[..n]), es[n])
  }

  lemma YieldThreads(s: Sched, i: nat, now: nat)
    requires Consistent(s) && ThreadsAgree(s) && i < |s.tasks| && now > 0
    ensures ThreadsAgree(YieldStep(s, i, now))
  {
    var z := YieldStep(s, i, now);
    assert TaskAgrees(s.tasks[i], s.curr == Some(i));
    forall j | 0 <= j < |z.tasks|
      ensures ThreadAgrees(z.tasks[j], ThreadOf(z.threads, z.tasks[j].pid))
    {
      assert ThreadAgrees(s.tasks[j], ThreadOf(s.threads, s.tasks[j].pid));
    }
  }

  lemma DispatchThreads(s: Sched)
    requires Consistent(s) && ThreadsAgree(s)
    ensures ThreadsAgree(DispatchStep(s))
  {
    var z := DispatchStep(s);
    DispatchInstallsChoice(s);
    forall j | 0 <= j < |z.tasks|
      ensures ThreadAgrees(z.tasks[j], ThreadOf(z.threads, z.tasks[j].pid))
    {
      DispatchAt(s, j);
      assert TaskAgrees(s.tasks[j], s.curr == Some(j));
      assert ThreadAgrees(s.tasks[j], ThreadOf(s.threads, s.tasks[j].pid));
      if s.curr.Some? && s.curr.value != j {
        assert s.tasks[s.curr.value].pid != s.tasks[j].pid;
      }
    }
  }

  lemma DeregisterThreads(a: Arith, s: Sched, i: nat)
    requires ThreadsAgree(s) && i < |s.tasks|
    ensures ThreadsAgree(DeregisterStep(a, s, i))
  {
  }

  /** An accepted registration keeps the agreement if and only if it is clean. */
  lemma EntryIsCleanIff(a: Arith, s: Sched, pid: int, c: Claim)
    requires ThreadsAgree(s) && Admit(a, s.ledger, c).accepted
    ensures ThreadsAgree(RegisterStep(a, s, pid, c)) <==> CleanEntry(s, Register(pid, c))
  {
    var z, n := RegisterStep(a, s, pid, c), |s.tasks|;
    assert z.tasks[..n] == s.tasks && z.tasks[n] == Task(pid, c, Sleeping, 0, None);
    if ThreadsAgree(z) {
      assert ThreadAgrees(z.tasks[n], ThreadOf(z.threads, pid));
      assert forall i :: 0 <= i < n ==> z.tasks[i] == s.tasks[i] && z.tasks[i].pid != z.tasks[n].pid;
    }
  }

  lemma StepThreads(a: Arith, s: Sched, e: Event)
    requires Consistent(s) && ThreadsAgree(s) && CleanEntry(s, e)
    ensures ThreadsAgree(Step(a, s, e))
  {
    if Enabled(s, e) {
      match e
      case Yield(pid, now) => YieldThreads(s, FindByPid(s.tasks, pid).value, now);
      case Dispatch => DispatchThreads(s);
      case Deregister(pid) => DeregisterThreads(a, s, FindByPid(s.tasks, pid).value);
      case Fire(i, _) => assert TaskAgrees(s.tasks[i], s.curr == Some(i));
      case Register(_, _) =>
    }
  }

  lemma {:induction false} AlwaysThreadsAgree(a: Arith, threads: map<int, Thread>, es: seq<Event>)
    requires CleanRun(a, threads, es)
    ensures ThreadsAgree(Run(a, threads, es))
  {
    if es != [] {
      var front := es[..|es| - 1];
      forall n | 0 <= n < |front|
        ensures CleanEntry(Run(a, threads, front[..n]), front[n])
      {
        assert front[..n] == es[..n] && front[n] == es[n];
      }
      AlwaysThreadsAgree(a, threads, front);
      AlwaysConsistent(a, threads, front);
      StepThreads(a, Run(a, threads, front), es[|es| - 1]);
    }
  }

  /** In every clean run a listed process that can run at real-time priority is the current task. */
  lemma OnlyCurrentIsRealTime(a: Arith, threads: map<int, Thread>, es: seq<Event>, i: nat)
    requires CleanRun(a, threads, es) && i < |Run(a, threads, es).tasks|
    ensures var s := Run(a, threads, es);
      var k := ThreadOf(s.threads, s.tasks[i].pid);
      CompetesNow(k) <==> s.curr == Some(i)
  {
    var s := Run(a, threads, es);
    AlwaysThreadsAgree(a, threads, es);
    AlwaysConsistent(a, threads, es);
    assert TaskAgrees(s.tasks[i], s.curr == Some(i));
    assert ThreadAgrees(s.tasks[i], ThreadOf(s.threads, s.tasks[i].pid));
  }

  // ---------------------------------------------------------------------------
  // Leaving while running
  // ---------------------------------------------------------------------------

  /** Process 7 registers, is activated and dispatched, leaves, and registers again. */
  const REENTRY: seq<Event> :=
    [Register(7, Claim(100, 10)), Yield(7, 1), Dispatch, Deregister(7), Register(7, Claim(100, 10))]

  function Seven(state: TaskState, nextPeriod: nat): Task {
    Task(7, Claim(100, 10), state, nextPeriod, None)
  }

  /** Process 7 is current, at real-time priority. */
  function SevenRuns(): Sched {
    Sched([Seven(Running, 11)], Some(0), Ledger(10, 100), false, map[7 := Thread(true, true)])
  }

  lemma SevenRegisters()
    ensures Step(Machine, Init(map[]), REENTRY[0]) == Sched([Seven(Sleeping, 0)], None, Ledger(10, 100), true, map[])
  {
    assert REENTRY[0] == Register(7, Claim(100, 10));
  }

  lemma SevenYields(s: Sched)
    requires s == Sched([Seven(Sleeping, 0)], None, Ledger(10, 100), true, map[])
    ensures Step(Machine, s, REENTRY[1]) == s.(tasks := [Seven(Ready, 11)])
  {
    assert REENTRY[1] == Yield(7, 1) && FindByPid(s.tasks, 7) == Some(0) && Interval(100) == 10;
  }

  lemma SevenIsPicked(s: Sched)
    requires s == Sched([Seven(Ready, 11)], None, Ledger(10, 100), true, map[])
    ensures Step(Machine, s, REENTRY[2]) == SevenRuns()
  {
    assert REENTRY[2] == Dispatch;
    assert s.tasks[..0] == [] && Pick([]) == None;
    assert Pick(s.tasks) == Some(0);
  }

  lemma SevenIsDispatched()
    ensures Run(Machine, map[], REENTRY[..3]) == SevenRuns()
  {
    SevenIsReady();
    Reached(REENTRY, 3);
    SevenIsPicked(Run(Machine, map[], REENTRY[..2]));
  }

  lemma SevenIsReady()
    ensures Run(Machine, map[], REENTRY[..2]) == Sched([Seven(Ready, 11)], None, Ledger(10, 100), true, map[])
  {
    SevenIsListed();
    Reached(REENTRY, 2);
    SevenYields(Run(Machine, map[], REENTRY[..1]));
  }

  lemma SevenIsListed()
    ensures Run(Machine, map[], REENTRY[..1]) == Sched([Seven(Sleeping, 0)], None, Ledger(10, 100), true, map[])
  {
    Reached(REENTRY, 1);
    assert REENTRY[..0] == [];
    SevenRegisters();
  }

  /**
    The module never lowers the policy of a task that leaves.  A process that deregisters
    while it runs and registers again is listed, runnable at SCHED_FIFO 99, and not current.
   */
  lemma StalePolicyAfterReentry()
    ensures var s := Run(Machine, map[], REENTRY);
      && |s.tasks| == 1 && s.curr == None
      && ThreadOf(s.threads, s.tasks[0].pid) == Thread(true, true)
    ensures !CleanEntry(Run(Machine, map[], REENTRY[..4]), REENTRY[4])
  {
    SevenLeaves();
    Reached(REENTRY, 5);
    assert REENTRY[..5] == REENTRY;
    assert REENTRY[4] == Register(7, Claim(100, 10));
  }

  function SevenLeft(): Sched {
    Sched([], None, Ledger(0, 100), true, map[7 := Thread(true, true)])
  }

  lemma SevenLeaves()
    ensures Run(Machine, map[], REENTRY[..4]) == SevenLeft()
  {
    var s := SevenRuns();
    SevenIsDispatched();
    Reached(REENTRY, 4);
    assert REENTRY[3] == Deregister(7);
    assert FindByPid(s.tasks, 7) == Some(0);
    assert Without(s.tasks, 0) == [];
    assert Retire(Machine, s.ledger, s.tasks[0].claim) == Ledger(0, 100);
  }

  lemma Reached(es: seq<Event>, n: nat)
    requires 0 < n <= |es|
    ensures Run(Machine, map[], es[..n]) == Step(Machine, Run(Machine, map[], es[..n - 1]), es[n - 1])
  {
    RunSnoc(Machine, map[], es[..n - 1], es[n - 1]);
    assert es[..n - 1] + [es[n - 1]] == es[..n];
  }
}
