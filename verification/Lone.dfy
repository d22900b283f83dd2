/**
  A task alone on the processor that always uses its whole claim.

  A jiffy lasts `j` milliseconds.  The task is activated at millisecond `m`; each job takes the
  claimed computation, the yield comes when it is done, and the dispatcher runs at once.
 */
module Lone {
  import opened Load
  import opened Admission
  import opened Scheduler
  import opened Options
  import opened Jiffies

  /** The module with process 1 listed alone, and the millisecond at which its present job will finish. */
  datatype Lone = Lone(s: Sched, finish: nat)

  /** Process 1 enters, and is activated and dispatched at millisecond `m`. */
  function LoneStart(j: nat, threads: map<int, Thread>, c: Claim, m: nat): Lone
    requires j > 0
  {
    Lone(Step(Machine, Step(Machine, Step(Machine, Init(threads), Register(1, c)), Yield(1, m / j)), Dispatch),
         m + c.computation)
  }

  /** The job finishes and process 1 yields; if that puts it to sleep, its timer fires when due.  It is dispatched at once. */
  function LoneJob(j: nat, z: Lone): Lone
    requires |z.s.tasks| == 1 && j > 0
  {
    var t, y := z.s.tasks[0], Step(Machine, z.s, Yield(1, z.finish / j));
    if z.finish / j < t.nextPeriod then
      Lone(Step(Machine, Step(Machine, Step(Machine, y, Dispatch), Fire(0, t.nextPeriod)), Dispatch),
           Times(t.nextPeriod, j) + t.claim.computation)
    else
      Lone(Step(Machine, y, Dispatch), z.finish + t.claim.computation)
  }

  /** Process 1 runs with release `np` ahead of it. */
  ghost predicate RunsAlone(z: Lone, c: Claim, np: nat) {
    z.s.tasks == [Task(1, c, Running, np, None)] && z.s.curr == Some(0) && !z.s.wake
  }

  lemma {:induction false} OnlyTask(t: Task)
    ensures FindByPid([t], t.pid) == Some(0)
    ensures Pick([t]) == if Eligible(t) then Some(0) else None
  {
    assert [t][..0] == [];
    assert Pick([]) == None;
  }

  lemma LoneStarts(j: nat, threads: map<int, Thread>, c: Claim, m: nat)
    requires m >= j > 0 && c.period < INT_MAX && Admit(Machine, Ledger(0, 0), c).accepted
    ensures RunsAlone(LoneStart(j, threads, c, m), c, Release(j, m, Interval(c.period), 1))
  {
    var t := Task(1, c, Sleeping, 0, None);
    var s := Step(Machine, Init(threads), Register(1, c));
    assert s.tasks == [t] && Release(j, m, Interval(c.period), 0) == m / j;
    OnlyTask(t);
    OnlyTask(t.(state := Ready, nextPeriod := m / j + Interval(c.period)));
  }

  /** An early job leaves the grid point it waited for, a late one keeps the backlog. */
  lemma LoneJobRuns(j: nat, z: Lone, c: Claim, np: nat)
    requires j > 0 && RunsAlone(z, c, np) && c.period < INT_MAX && z.finish >= j && np > 0
    ensures RunsAlone(LoneJob(j, z), c, np + Interval(c.period))
    ensures LoneJob(j, z).finish == c.computation + if z.finish / j < np then Times(np, j) else z.finish
  {
    var t := z.s.tasks[0];
    var d := Interval(c.period);
    OnlyTask(t);
    var y := Step(Machine, z.s, Yield(1, z.finish / j));
    if z.finish / j < np {
      LoneSleeps(y, c, np, np + d);
    } else {
      OnlyTask(t.(nextPeriod := np + d));
    }
  }

  lemma LoneSleeps(y: Sched, c: Claim, due: nat, np: nat)
    requires y.tasks == [Task(1, c, Sleeping, np, Some(due))] && y.curr == None && y.wake && c.period < INT_MAX
    ensures var z := Step(Machine, Step(Machine, Step(Machine, y, Dispatch), Fire(0, due)), Dispatch);
      z.tasks == [Task(1, c, Running, np, None)] && z.curr == Some(0) && !z.wake
  {
    OnlyTask(y.tasks[0]);
    var w := Step(Machine, y, Dispatch);
    assert w == y.(wake := false);
    OnlyTask(Task(1, c, Ready, np, None));
  }

  /** The k-th release of a task activated at millisecond `m`, as a jiffy. */
  function Release(j: nat, m: nat, d: nat, k: nat): (r: nat)
    requires j > 0
    ensures r >= m / j
  {
    if k == 0 then m / j else Release(j, m, d, k - 1) + d
  }

  /**
    When job `n` finishes, counted from 0: the first `w` milliseconds after activation, each
    later one `w` milliseconds after its release or after the job before it.
   */
  function Finish(j: nat, m: nat, d: nat, w: nat, n: nat): (f: nat)
    requires j > 0
    ensures f >= m
  {
    if n == 0 then m + w else w + Later(Times(Release(j, m, d, n), j), Finish(j, m, d, w, n - 1))
  }

  function Later(a: nat, b: nat): nat {
    if a < b then b else a
  }

  /** After `n` jobs of a claim that is admitted alone. */
  ghost function LoneAfter(j: nat, threads: map<int, Thread>, c: Claim, m: nat, n: nat): (z: Lone)
    requires m >= j > 0 && c.period < INT_MAX && Admit(Machine, Ledger(0, 0), c).accepted
    ensures z.finish == Finish(j, m, Interval(c.period), c.computation, n)
    ensures RunsAlone(z, c, Release(j, m, Interval(c.period), n + 1))
  {
    if n == 0 then
      LoneStarts(j, threads, c, m);
      LoneStart(j, threads, c, m)
    else
      LoneGoesOn(j, LoneAfter(j, threads, c, m, n - 1), c, m, n);
      LoneJob(j, LoneAfter(j, threads, c, m, n - 1))
  }

  lemma LoneGoesOn(j: nat, z: Lone, c: Claim, m: nat, n: nat)
    requires m >= j > 0 && c.period < INT_MAX && z.finish >= j && RunsAlone(z, c, Release(j, m, Interval(c.period), n))
    ensures LoneJob(j, z).finish == c.computation + Later(Times(Release(j, m, Interval(c.period), n), j), z.finish)
    ensures RunsAlone(LoneJob(j, z), c, Release(j, m, Interval(c.period), n + 1))
  {
    var np := Release(j, m, Interval(c.period), n);
    BeforeJiffy(m, j, 1);
    LoneJobRuns(j, z, c, np);
    BeforeJiffy(z.finish, j, np);
  }

  /** The present job finishes no later than its next release. */
  ghost predicate LoneInTime(j: nat, z: Lone)
    requires |z.s.tasks| == 1
  {
    z.finish <= Times(z.s.tasks[0].nextPeriod, j)
  }

  // ---------------------------------------------------------------------------
  // When jobs finish
  // ---------------------------------------------------------------------------

  /** The next release lies an interval after the last. */
  lemma NextRelease(j: nat, m: nat, d: nat, n: nat)
    requires j > 0
    ensures Times(Release(j, m, d, n + 1), j) == Times(Release(j, m, d, n), j) + Times(d, j)
    ensures m == Times(Release(j, m, d, 0), j) + m % j
  {
    TimesAdd(Release(j, m, d, n), d, j);
    WholeAndRest(m, j);
  }

  /** If the first job is in time, every later one starts on its release. */
  lemma {:induction false} FinishInTime(j: nat, m: nat, d: nat, w: nat, n: nat)
    requires j > 0 && w + m % j <= Times(d, j)
    ensures Finish(j, m, d, w, n) <= Times(Release(j, m, d, n + 1), j)
  {
    NextRelease(j, m, d, n);
    if n > 0 {
      FinishInTime(j, m, d, w, n - 1);
    }
  }

  lemma FirstFinish(j: nat, m: nat, d: nat, w: nat)
    requires j > 0
    ensures Finish(j, m, d, w, 0) + Times(d, j) == Times(Release(j, m, d, 1), j) + m % j + w
  {
    NextRelease(j, m, d, 0);
  }

  lemma {:induction false} FinishLate(j: nat, m: nat, d: nat, w: nat, n: nat)
    requires j > 0 && w > Times(d, j)
    ensures Finish(j, m, d, w, n) == Times(Release(j, m, d, n + 1), j) + m % j + Times(n + 1, w - Times(d, j))
  {
    if n == 0 {
      FirstFinish(j, m, d, w);
      TimesIs(1, w - Times(d, j));
    } else {
      FinishLate(j, m, d, w, n - 1);
      NextRelease(j, m, d, n);
    }
  }

  // ---------------------------------------------------------------------------
  // When the task is in time
  // ---------------------------------------------------------------------------

  /** The claim fits the jiffies of its period, less what had passed of the jiffy of activation. */
  predicate FitsJiffies(j: nat, c: Claim, m: nat)
    requires j > 0
  {
    c.computation + m % j <= j * Interval(c.period)
  }

  lemma InTimeIs(j: nat, threads: map<int, Thread>, c: Claim, m: nat, n: nat)
    requires m >= j > 0 && c.period < INT_MAX && Admit(Machine, Ledger(0, 0), c).accepted
    ensures LoneInTime(j, LoneAfter(j, threads, c, m, n))
      <==> Finish(j, m, Interval(c.period), c.computation, n) <= Times(Release(j, m, Interval(c.period), n + 1), j)
  {
  }

  lemma FittingIsInTime(j: nat, threads: map<int, Thread>, c: Claim, m: nat, n: nat)
    requires m >= j > 0 && c.period < INT_MAX && Admit(Machine, Ledger(0, 0), c).accepted && FitsJiffies(j, c, m)
    ensures LoneInTime(j, LoneAfter(j, threads, c, m, n))
  {
    TimesIs(Interval(c.period), j);
    FinishInTime(j, m, Interval(c.period), c.computation, n);
    InTimeIs(j, threads, c, m, n);
  }

  lemma OtherwiseLate(j: nat, threads: map<int, Thread>, c: Claim, m: nat, first: nat)
    requires m >= j > 0 && c.period < INT_MAX && Admit(Machine, Ledger(0, 0), c).accepted && !FitsJiffies(j, c, m)
    requires first == 0
    ensures !LoneInTime(j, LoneAfter(j, threads, c, m, first))
  {
    FirstFinishLate(j, m, Interval(c.period), c.computation);
    InTimeIs(j, threads, c, m, first);
  }

  lemma FirstFinishLate(j: nat, m: nat, d: nat, w: nat)
    requires j > 0 && w + m % j > j * d
    ensures Finish(j, m, d, w, 0) > Times(Release(j, m, d, 1), j)
  {
    TimesIs(d, j);
    FirstFinish(j, m, d, w);
  }

  /**
    Alone on the processor and always using its whole claim, a task is in time for ever if
    and only if the claim fits the jiffies of its period, less what had passed of the jiffy
    in which it was activated.
   */
  lemma LoneTaskInTimeIff(j: nat, threads: map<int, Thread>, c: Claim, m: nat)
    requires m >= j > 0 && c.period < INT_MAX && Admit(Machine, Ledger(0, 0), c).accepted
    ensures (forall n: nat :: LoneInTime(j, LoneAfter(j, threads, c, m, n))) <==> FitsJiffies(j, c, m)
  {
    if FitsJiffies(j, c, m) {
      forall n: nat
        ensures LoneInTime(j, LoneAfter(j, threads, c, m, n))
      {
        FittingIsInTime(j, threads, c, m, n);
      }
    } else {
      OtherwiseLate(j, threads, c, m, 0);
    }
  }

  /** The present job finishes `x` milliseconds after its next release. */
  ghost predicate LateBy(j: nat, z: Lone, x: nat) {
    |z.s.tasks| == 1 && z.finish == Times(z.s.tasks[0].nextPeriod, j) + x
  }

  lemma LateByIs(j: nat, z: Lone, c: Claim, np: nat, x: nat)
    requires RunsAlone(z, c, np) && z.finish == Times(np, j) + x
    ensures LateBy(j, z, x)
  {
  }

  /** A claim beyond the jiffies of its period: the backlog grows by the excess with every job. */
  lemma BacklogGrows(j: nat, threads: map<int, Thread>, c: Claim, m: nat, n: nat)
    requires m >= j > 0 && c.period < INT_MAX && Admit(Machine, Ledger(0, 0), c).accepted
    requires c.computation > Times(Interval(c.period), j)
    ensures LateBy(j, LoneAfter(j, threads, c, m, n), m % j + Times(n + 1, c.computation - Times(Interval(c.period), j)))
  {
    var d := Interval(c.period);
    FinishLate(j, m, d, c.computation, n);
    LateByIs(j, LoneAfter(j, threads, c, m, n), c, Release(j, m, d, n + 1), m % j + Times(n + 1, c.computation - Times(d, j)));
  }

  /**
    Three ways to be late are admitted.  With jiffies of ten milliseconds: 13 of every 19 ms,
    kept as one jiffy, from the first job on and ever more; 6 of every 10 ms, if activated
    within a jiffy.  With jiffies of four milliseconds: 600 of every second.
   */
  lemma AdmittedYetLate(threads: map<int, Thread>)
    ensures Admit(Machine, Ledger(0, 0), Claim(19, 13)).accepted && Admit(Machine, Ledger(0, 0), Claim(10, 6)).accepted
    ensures forall n: nat :: !LoneInTime(10, LoneAfter(10, threads, Claim(19, 13), 10, n))
    ensures !LoneInTime(10, LoneAfter(10, threads, Claim(10, 6), 15, 0)) && LoneInTime(10, LoneAfter(10, threads, Claim(10, 6), 10, 0))
    ensures Admit(Machine, Ledger(0, 0), Claim(1000, 600)).accepted
    ensures forall n: nat :: !LoneInTime(4, LoneAfter(4, threads, Claim(1000, 600), 4, n))
  {
    assert Interval(19) == 1 && Interval(10) == 1;
    AlwaysLate(10, threads, Claim(19, 13), 10);
    FirstFinish(10, 15, 1, 6);
    FirstFinish(10, 10, 1, 6);
    TimesIs(1, 10);
    TimesIs(100, 4);
    AlwaysLate(4, threads, Claim(1000, 600), 4);
  }

  lemma FinishIsLate(j: nat, m: nat, d: nat, w: nat, n: nat)
    requires j > 0 && w > Times(d, j)
    ensures Finish(j, m, d, w, n) > Times(Release(j, m, d, n + 1), j)
  {
    FinishLate(j, m, d, w, n);
  }

  lemma LateJob(j: nat, threads: map<int, Thread>, c: Claim, m: nat, n: nat)
    requires m >= j > 0 && c.period < INT_MAX && Admit(Machine, Ledger(0, 0), c).accepted
    requires c.computation > Times(Interval(c.period), j)
    ensures !LoneInTime(j, LoneAfter(j, threads, c, m, n))
  {
    FinishIsLate(j, m, Interval(c.period), c.computation, n);
    InTimeIs(j, threads, c, m, n);
  }

  lemma AlwaysLate(j: nat, threads: map<int, Thread>, c: Claim, m: nat)
    requires m >= j > 0 && c.period < INT_MAX && Admit(Machine, Ledger(0, 0), c).accepted
    requires c.computation > Times(Interval(c.period), j)
    ensures forall n: nat :: !LoneInTime(j, LoneAfter(j, threads, c, m, n))
  {
    forall n: nat
      ensures !LoneInTime(j, LoneAfter(j, threads, c, m, n))
    {
      LateJob(j, threads, c, m, n);
    }
  }
}
