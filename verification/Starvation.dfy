/**
  Why the closed loop restricts how what a leaving task frees is given away again.

  Admission control looks at the tasks listed now.  A task that leaves when its job is done
  and registers again starts a new period at once.  Here process 2 does so for ever: in the
  machine's arithmetic each registration is accepted, each dispatch gives it the processor,
  no job exceeds its claim, and process 1, admitted and awake, never runs.
 */
module Starvation {
  import opened Load
  import opened Admission
  import opened Scheduler
  import opened Options

  const SLOW: Claim := Claim(10000, 900)
  const FAST: Claim := Claim(1000, 600)

  /** Jiffies that one job of process 2 takes. */
  const JOB: nat := 60

  function Cycle(now: nat): seq<Event> {
    [Deregister(2), Register(2, FAST), Yield(2, now), Dispatch]
  }

  /** Both processes register and are activated at jiffy 1; then process 2 leaves and comes back after each job. */
  function Events(n: nat): seq<Event> {
    if n == 0 then [Register(1, SLOW), Yield(1, 1), Register(2, FAST), Yield(2, 1), Dispatch]
    else Events(n - 1) + Cycle(1 + JOB * n)
  }

  /**
    The fraction after round `n`.  The first three are the total of the two claims over ever
    larger denominators; then the 64-bit product wraps, and from there on the fraction is
    that of process 2 alone.
   */
  function Fraction(n: nat): Ledger {
    if n == 0 then Ledger(6_900_000, 10_000_000)
    else if n == 1 then Ledger(6_900_000_000_000, 10_000_000_000_000)
    else if n == 2 then Ledger(6_900_000_000_000_000_000, 10_000_000_000_000_000_000)
    else Ledger(600, 1000)
  }

  /** Process 1 waits for its first job, due at jiffy 1001; process 2 has the processor. */
  ghost predicate Starving(s: Sched, n: nat) {
    && |s.tasks| == 2 && s.curr == Some(1) && !s.wake
    && s.tasks[0] == Task(1, SLOW, Ready, 1001, None)
    && s.tasks[1].pid == 2 && s.tasks[1].claim == FAST && s.tasks[1].state == Running
    && s.ledger == Fraction(n)
  }

  lemma RunTwo(threads: map<int, Thread>, es: seq<Event>, a: Event, b: Event)
    ensures Run(Machine, threads, es + [a, b]) == Step(Machine, Step(Machine, Run(Machine, threads, es), a), b)
  {
    RunSnoc(Machine, threads, es, a);
    RunSnoc(Machine, threads, es + [a], b);
    assert es + [a, b] == es + [a] + [b];
  }

  lemma RunFour(threads: map<int, Thread>, es: seq<Event>, a: Event, b: Event, c: Event, d: Event)
    ensures Run(Machine, threads, es + [a, b, c, d])
      == Step(Machine, Step(Machine, Step(Machine, Step(Machine, Run(Machine, threads, es), a), b), c), d)
  {
    RunTwo(threads, es, a, b);
    RunTwo(threads, es + [a, b], c, d);
    assert es + [a, b, c, d] == es + [a, b] + [c, d];
  }

  /** The first yield of the second of two listed processes makes it ready. */
  lemma SecondAwakes(s: Sched, slow: Task, fast: Task, now: nat)
    requires s.tasks == [slow, fast] && slow.pid != fast.pid && fast.nextPeriod == 0 && now > 0
    ensures Step(Machine, s, Yield(fast.pid, now)) ==
      s.(tasks := [slow, fast.(state := Ready, nextPeriod := now + Interval(fast.claim.period))], wake := true)
  {
    assert s.tasks[1..] == [fast];
    assert FindByPid([fast], fast.pid) == Some(0);
  }

  /** The dispatcher gives the idle processor to the second of two ready processes if its period is shorter. */
  lemma SecondIsDispatched(s: Sched, slow: Task, fast: Task)
    requires s.tasks == [slow, fast] && s.curr == None && s.wake && Eligible(slow) && fast.state == Ready
    requires fast.claim.period < slow.claim.period
    ensures Step(Machine, s, Dispatch) == PromoteStep(s, 1).(wake := false)
  {
    assert s.tasks[..1] == [slow] && [slow][..0] == [];
    assert Pick([slow]) == Some(0);
    assert Pick(s.tasks) == Some(1);
  }

  /** Registration, activation and dispatch of process 2, found room for beside process 1. */
  lemma FastReturns(s: Sched, n: nat, now: nat)
    requires s.tasks == [Task(1, SLOW, Ready, 1001, None)] && s.curr == None && now > 0
    requires Admit(Machine, s.ledger, FAST) == Verdict(true, Fraction(n))
    ensures Starving(Step(Machine, Step(Machine, Step(Machine, s, Register(2, FAST)), Yield(2, now)), Dispatch), n)
  {
    var slow, fast := s.tasks[0], Task(2, FAST, Sleeping, 0, None);
    var s1 := Step(Machine, s, Register(2, FAST));
    assert s1.tasks == [slow, fast];
    SecondAwakes(s1, slow, fast, now);
    SecondIsDispatched(Step(Machine, s1, Yield(2, now)), slow, fast.(state := Ready, nextPeriod := now + Interval(FAST.period)));
  }

  lemma Wraps(x: nat, q: nat, r: nat)
    requires x == q * ULONG + r && r < ULONG
    ensures ULong(Machine, x) == r
  {
  }

  lemma FractionStarts()
    ensures Admit(Machine, Ledger(900, 10000), FAST) == Verdict(true, Fraction(0))
  {
  }

  lemma FirstReturn()
    ensures Retire(Machine, Fraction(0), FAST) == Ledger(900_000_000, 10_000_000_000)
    ensures Admit(Machine, Ledger(900_000_000, 10_000_000_000), FAST) == Verdict(true, Fraction(1))
  {
  }

  lemma SecondReturn()
    ensures Retire(Machine, Fraction(1), FAST) == Ledger(900_000_000_000_000, 10_000_000_000_000_000)
    ensures Admit(Machine, Ledger(900_000_000_000_000, 10_000_000_000_000_000), FAST) == Verdict(true, Fraction(2))
  {
    Wraps(6_900_000_000_000_000_000_000, 374, 917_716_432_627_695_616);
    Wraps(6_930_000_000_000_000_000_000, 375, 12_470_972_358_918_144_000);
  }

  lemma ThirdReturn()
    ensures Retire(Machine, Fraction(2), FAST) == Ledger(0, 10_000_000_000_000_000_000)
  {
    Wraps(6_900_000_000_000_000_000_000, 374, 917_716_432_627_695_616);
    Wraps(6_000_000_000_000_000_000_000, 325, 4_808_176_044_395_724_800);
  }

  /** Every re-entry is accepted; from the third on what is retired is all there is. */
  lemma FractionCycles(n: nat)
    ensures Admit(Machine, Retire(Machine, Fraction(n), FAST), FAST) == Verdict(true, Fraction(n + 1))
  {
    if n == 0 {
      FirstReturn();
    } else if n == 1 {
      SecondReturn();
    } else if n == 2 {
      ThirdReturn();
    }
  }

  lemma CycleStarves(s: Sched, n: nat, now: nat)
    requires Starving(s, n) && now > 0
    ensures Starving(Step(Machine, Step(Machine, Step(Machine, Step(Machine, s, Deregister(2)), Register(2, FAST)), Yield(2, now)), Dispatch), n + 1)
  {
    var slow, fast := s.tasks[0], s.tasks[1];
    assert s.tasks == [slow, fast] && s.tasks[1..] == [fast];
    assert FindByPid([fast], 2) == Some(0);
    assert Without(s.tasks, 1) == [slow];
    FractionCycles(n);
    FastReturns(Step(Machine, s, Deregister(2)), n + 1, now);
  }

  lemma StartStarves(threads: map<int, Thread>)
    ensures Starving(Run(Machine, threads, Events(0)), 0)
  {
    var first := [Register(1, SLOW)];
    assert Events(0) == first + [Yield(1, 1), Register(2, FAST), Yield(2, 1), Dispatch];
    RunFour(threads, first, Yield(1, 1), Register(2, FAST), Yield(2, 1), Dispatch);
    SlowIsAwake(threads);
    FractionStarts();
    FastReturns(Step(Machine, Run(Machine, threads, first), Yield(1, 1)), 0, 1);
  }

  lemma SlowIsAwake(threads: map<int, Thread>)
    ensures var s := Step(Machine, Run(Machine, threads, [Register(1, SLOW)]), Yield(1, 1));
      s.tasks == [Task(1, SLOW, Ready, 1001, None)] && s.curr == None && s.ledger == Ledger(900, 10000)
  {
    RunSnoc(Machine, threads, [], Register(1, SLOW));
    assert [] + [Register(1, SLOW)] == [Register(1, SLOW)];
    var s1 := Run(Machine, threads, [Register(1, SLOW)]);
    assert s1.tasks == [Task(1, SLOW, Sleeping, 0, None)];
  }

  /** After any number of rounds process 2 has the processor and process 1 still waits for its first job. */
  lemma {:induction false} ReentryStarves(threads: map<int, Thread>, n: nat)
    ensures Starving(Run(Machine, threads, Events(n)), n)
  {
    if n == 0 {
      StartStarves(threads);
    } else {
      ReentryStarves(threads, n - 1);
      RunFour(threads, Events(n - 1), Deregister(2), Register(2, FAST), Yield(2, 1 + JOB * n), Dispatch);
      CycleStarves(Run(Machine, threads, Events(n - 1)), n - 1, 1 + JOB * n);
    }
  }
}
