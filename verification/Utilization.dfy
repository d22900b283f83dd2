/**
  What admission control guarantees over whole runs of the scheduler: the fraction is exact,
  the machine's arithmetic does not spoil it within stated bounds, and every list the
  module can reach meets all its deadlines.
 */
module Utilization {
  import opened Load
  import opened HyperbolicBound
  import opened Admission
  import opened Scheduler
  import opened Options
  import opened Consistency
  import opened Deadlines

  function Claims(tasks: seq<Task>): (cs: seq<Claim>)
    ensures |cs| == |tasks| && forall i :: 0 <= i < |tasks| ==> cs[i] == tasks[i].claim
  {
    seq(|tasks|, i requires 0 <= i < |tasks| => tasks[i].claim)
  }

  // ---------------------------------------------------------------------------
  // The fraction of a run
  // ---------------------------------------------------------------------------

  ghost predicate PositivePeriods(es: seq<Event>) {
    forall n :: 0 <= n < |es| && es[n].Register? ==> es[n].claim.period > 0
  }

  /** The fraction is the exact total of the listed tasks, and the total is within the limit. */
  ghost predicate Accounted(s: Sched) {
    Exact(s.ledger, Claims(s.tasks)) && Total(Claims(s.tasks)) <= LIMIT
  }

  lemma StepAccounts(s: Sched, e: Event)
    requires Accounted(s) && (e.Register? ==> e.claim.period > 0)
    ensures Accounted(Step(Ideal, s, e))
  {
    var z, cs := Step(Ideal, s, e), Claims(s.tasks);
    if Enabled(s, e) {
      match e
      case Register(pid, c) =>
        IdealAdmit(s.ledger, cs, c);
        TotalAppend(cs, c);
        if Admit(Ideal, s.ledger, c).accepted {
          assert Claims(z.tasks) == cs + [c];
        }
      case Deregister(pid) =>
        var i := FindByPid(s.tasks, pid).value;
        IdealRetire(s.ledger, cs, i);
        TotalWithout(cs, i);
        assert Claims(z.tasks) == Without(cs, i);
      case _ => OtherEvents(s, e);
    }
  }

  lemma {:induction false} IdealAccounted(threads: map<int, Thread>, es: seq<Event>)
    requires PositivePeriods(es)
    ensures Accounted(Run(Ideal, threads, es))
  {
    if es == [] {
      assert Claims([]) == [] && Shares([]) == [];
    } else {
      IdealAccounted(threads, es[..|es| - 1]);
      StepAccounts(Run(Ideal, threads, es[..|es| - 1]), es[|es| - 1]);
    }
  }

  // ---------------------------------------------------------------------------
  // The machine's arithmetic
  // ---------------------------------------------------------------------------

  /** The number of periods multiplied into the denominator since the numerator was last zero. */
  function Depth(threads: map<int, Thread>, es: seq<Event>): nat {
    if es == [] then 0 else
      var front := es[..|es| - 1];
      Factors(Run(Machine, threads, front).ledger, Run(Machine, threads, es).ledger, Depth(threads, front))
  }

  predicate Modest(e: Event, b: nat) {
    e.Register? ==> 0 < e.claim.period <= b && e.claim.computation <= b
  }

  predicate CallsAdmission(e: Event) {
    e.Register? || e.Deregister?
  }

  /** Claims are at most `b`, and each call of admission control finds room for one more factor. */
  ghost predicate Bounded(threads: map<int, Thread>, es: seq<Event>, b: nat) {
    forall n :: 0 <= n < |es| ==>
      Modest(es[n], b) && (CallsAdmission(es[n]) ==> Roomy(b, Depth(threads, es[..n])))
  }

  lemma BoundedPrefix(threads: map<int, Thread>, es: seq<Event>, b: nat)
    requires es != [] && Bounded(threads, es, b)
    ensures Bounded(threads, es[..|es| - 1], b)
    ensures Modest(es[|es| - 1], b)
    ensures CallsAdmission(es[|es| - 1]) ==> Roomy(b, Depth(threads, es[..|es| - 1]))
  {
    var front := es[..|es| - 1];
    forall n | 0 <= n < |front|
      ensures Modest(front[n], b) && (CallsAdmission(front[n]) ==> Roomy(b, Depth(threads, front[..n])))
    {
      assert front[..n] == es[..n] && front[n] == es[n];
    }
  }

  ghost predicate ModestClaims(cs: seq<Claim>, b: nat) {
    forall i :: 0 <= i < |cs| ==> 0 < cs[i].period <= b && cs[i].computation <= b
  }

  /** Only registration and deregistration touch the fraction or the claims. */
  lemma OtherEvents(s: Sched, e: Event)
    requires !CallsAdmission(e)
    ensures var z := Step(Machine, s, e);
      z == Step(Ideal, s, e) && z.ledger == s.ledger && Claims(z.tasks) == Claims(s.tasks)
  {
  }

  lemma StepRefines(s: Sched, e: Event, b: nat, d: nat)
    requires Narrow(s.ledger, b, d) && ModestClaims(Claims(s.tasks), b) && Modest(e, b) && (CallsAdmission(e) ==> Roomy(b, d))
    ensures var z := Step(Machine, s, e);
      && z == Step(Ideal, s, e)
      && ModestClaims(Claims(z.tasks), b) && Narrow(z.ledger, b, Factors(s.ledger, z.ledger, d))
  {
    if Enabled(s, e) {
      match e
      case Register(pid, c) => AdmitRefines(s.ledger, c, b, d);
      case Deregister(pid) =>
        var i := FindByPid(s.tasks, pid).value;
        assert Claims(s.tasks)[i] == s.tasks[i].claim;
        RetireRefines(s.ledger, s.tasks[i].claim, b, d);
      case _ =>
        OtherEvents(s, e);
    }
  }

  /** Within the bounds, every decision and every stored fraction is the ideal one. */
  lemma {:induction false} MachineIsIdeal(threads: map<int, Thread>, es: seq<Event>, b: nat)
    requires Bounded(threads, es, b)
    ensures var s := Run(Machine, threads, es);
      && s == Run(Ideal, threads, es)
      && ModestClaims(Claims(s.tasks), b) && Narrow(s.ledger, b, Depth(threads, es))
  {
    if es != [] {
      var front := es[..|es| - 1];
      BoundedPrefix(threads, es, b);
      MachineIsIdeal(threads, front, b);
      StepRefines(Run(Machine, threads, front), es[|es| - 1], b, Depth(threads, front));
    }
  }

  /** Periods are positive, and the arithmetic never wraps. */
  ghost predicate Within(a: Arith, threads: map<int, Thread>, es: seq<Event>, b: nat) {
    PositivePeriods(es) && (a.Machine? ==> Bounded(threads, es, b))
  }

  /** After every sequence of events the fraction is exact. */
  lemma AlwaysAccounted(a: Arith, threads: map<int, Thread>, es: seq<Event>, b: nat)
    requires Within(a, threads, es, b)
    ensures Accounted(Run(a, threads, es))
  {
    IdealAccounted(threads, es);
    if a.Machine? {
      MachineIsIdeal(threads, es, b);
    }
  }

  /** A further claim is decided by the true total of the listed tasks, whatever happened before. */
  lemma DecidedByTheList(a: Arith, threads: map<int, Thread>, es: seq<Event>, pid: int, c: Claim, b: nat)
    requires Within(a, threads, es + [Register(pid, c)], b)
    ensures Periodic(Claims(Run(a, threads, es).tasks)) && c.period > 0
    ensures Admit(a, Run(a, threads, es).ledger, c).accepted
      <==> Total(Claims(Run(a, threads, es).tasks)) + Share(c) <= LIMIT
  {
    var s, fs := Run(a, threads, es), es + [Register(pid, c)];
    assert fs[..|fs| - 1] == es && fs[|es|] == Register(pid, c);
    assert PositivePeriods(es) by {
      assert forall n :: 0 <= n < |es| ==> es[n] == fs[n];
    }
    if a.Machine? {
      BoundedPrefix(threads, fs, b);
      MachineIsIdeal(threads, es, b);
    }
    AlwaysAccounted(a, threads, es, b);
    AdmitIsExact(a, s.ledger, Claims(s.tasks), c, b, Depth(threads, es));
  }

  /** Two histories that leave the same tasks, in any order, decide every further claim alike. */
  lemma HistoryDoesNotMatter(a: Arith, threads: map<int, Thread>, es: seq<Event>, fs: seq<Event>, pid: int, c: Claim, b: nat)
    requires Within(a, threads, es + [Register(pid, c)], b) && Within(a, threads, fs + [Register(pid, c)], b)
    requires multiset(Claims(Run(a, threads, es).tasks)) == multiset(Claims(Run(a, threads, fs).tasks))
    ensures Admit(a, Run(a, threads, es).ledger, c).accepted <==> Admit(a, Run(a, threads, fs).ledger, c).accepted
  {
    DecidedByTheList(a, threads, es, pid, c, b);
    DecidedByTheList(a, threads, fs, pid, c, b);
    TotalOfPermutation(Claims(Run(a, threads, es).tasks), Claims(Run(a, threads, fs).tasks));
  }

  /** The number of calls of admission control. */
  function Calls(es: seq<Event>): nat {
    if es == [] then 0 else Calls(es[..|es| - 1]) + (if CallsAdmission(es[|es| - 1]) then 1 else 0)
  }

  lemma {:induction false} DepthAtMostCalls(threads: map<int, Thread>, es: seq<Event>)
    ensures Depth(threads, es) <= Calls(es)
  {
    if es != [] {
      DepthAtMostCalls(threads, es[..|es| - 1]);
      if !CallsAdmission(es[|es| - 1]) {
        OtherEvents(Run(Machine, threads, es[..|es| - 1]), es[|es| - 1]);
      }
    }
  }

  lemma {:induction false} CallsOfPrefix(es: seq<Event>, n: nat)
    requires n < |es| && CallsAdmission(es[n])
    ensures Calls(es[..n]) + 1 <= Calls(es)
    decreases |es|
  {
    var m := |es| - 1;
    if n < m {
      CallsOfPrefix(es[..m], n);
      assert es[..m][..n] == es[..n];
    }
  }

  lemma {:induction false} IntPowMonotone(b: nat, m: nat, n: nat)
    requires b > 0 && m <= n
    ensures 0 < IntPow(b, m) <= IntPow(b, n)
    decreases n
  {
    if m == n {
      if m > 0 {
        IntPowMonotone(b, m - 1, m - 1);
        SumPositive(b, IntPow(b, m - 1), 0);
      }
    } else {
      IntPowMonotone(b, m, n - 1);
      ProductAtMost(1, IntPow(b, n - 1), b, IntPow(b, n - 1));
    }
  }

  /** A condition on the commands alone: few enough calls, with small enough numbers. */
  lemma FewCallsAreBounded(threads: map<int, Thread>, es: seq<Event>, b: nat)
    requires b > 0 && 1000 * b < UINT && 2000 * IntPow(b, Calls(es)) < ULONG
    requires forall n :: 0 <= n < |es| ==> Modest(es[n], b)
    ensures Bounded(threads, es, b)
  {
    forall n | 0 <= n < |es| && CallsAdmission(es[n])
      ensures Roomy(b, Depth(threads, es[..n]))
    {
      DepthAtMostCalls(threads, es[..n]);
      CallsOfPrefix(es, n);
      RoomyBelow(b, Depth(threads, es[..n]), Calls(es));
    }
  }

  lemma RoomyBelow(b: nat, d: nat, n: nat)
    requires b > 0 && 1000 * b < UINT && 2000 * IntPow(b, n) < ULONG && d + 1 <= n
    ensures Roomy(b, d)
  {
  }

  // ---------------------------------------------------------------------------
  // What the limit is for
  // ---------------------------------------------------------------------------

  /** Every list the module reaches passes the hyperbolic test and fits every common horizon. */
  lemma ReachableLoad(threads: map<int, Thread>, es: seq<Event>, b: nat)
    requires Bounded(threads, es, b)
    ensures var cs := Claims(Run(Machine, threads, es).tasks);
      && Periodic(cs) && Exact(Run(Machine, threads, es).ledger, cs)
      && Total(cs) <= LIMIT && Hyperbolic(cs) <= 2.0
      && forall h: nat :: (forall i :: 0 <= i < |cs| ==> h % cs[i].period == 0) ==> 1000 * WorkOver(cs, h) <= 693 * h
  {
    var cs := Claims(Run(Machine, threads, es).tasks);
    MachineIsIdeal(threads, es, b);
    assert PositivePeriods(es) by {
      assert forall n :: 0 <= n < |es| ==> Modest(es[n], b);
    }
    AlwaysAccounted(Machine, threads, es, b);
    LimitIsHyperbolic(cs);
    forall h: nat | forall i :: 0 <= i < |cs| ==> h % cs[i].period == 0
      ensures 1000 * WorkOver(cs, h) <= 693 * h
    {
      HorizonWithinLimit(cs, h);
    }
  }

  /** The tasks, awake exactly if they have work at tick `t`. */
  function AwakeAt(tasks: seq<Task>, x: Execution, t: nat): (ts: seq<Task>)
    ensures |ts| == |tasks|
    ensures forall i :: 0 <= i < |tasks| ==>
      ts[i] == tasks[i].(state := if Waiting(x, i, t) then Ready else Sleeping)
  {
    seq(|tasks|, i requires 0 <= i < |tasks| => tasks[i].(state := if Waiting(x, i, t) then Ready else Sleeping))
  }

  /** At every tick the processor belongs to the task that the dispatcher would choose. */
  ghost predicate Follows(tasks: seq<Task>, x: Execution) {
    forall t: nat :: x.serve(t) == match Pick(AwakeAt(tasks, x, t)) case None => -1 case Some(i) => i
  }

  lemma FollowingIsRateMonotonic(tasks: seq<Task>, x: Execution, h: nat)
    requires forall i :: 0 <= i < |tasks| ==> tasks[i].claim.period < INT_MAX
    requires Follows(tasks, x)
    ensures RateMonotonic(Claims(tasks), x, h)
  {
    forall t: nat
      ensures ServedByRate(Claims(tasks), x, t)
    {
      var ts := AwakeAt(tasks, x, t);
      PickIsChoice(ts);
      assert forall j: nat :: j < |tasks| ==> (Eligible(ts[j]) <==> Waiting(x, j, t));
    }
  }

  /** A listed task was accepted by a call with room for its period. */
  lemma {:induction false} ListedMeansRoom(threads: map<int, Thread>, es: seq<Event>, b: nat)
    requires Bounded(threads, es, b) && Run(Machine, threads, es).tasks != []
    ensures 1000 * b < UINT
  {
    var n := |es| - 1;
    var s := Run(Machine, threads, es[..n]);
    BoundedPrefix(threads, es, b);
    if !CallsAdmission(es[n]) {
      OtherEvents(s, es[n]);
      assert |Claims(Step(Machine, s, es[n]).tasks)| == |Claims(s.tasks)|;
      ListedMeansRoom(threads, es[..n], b);
    }
  }

  /**
    The promise of admission control.  Take any list of tasks that the module reaches by
    commands within the bounds, any pattern of jobs at least a period apart and no longer
    than claimed, and let the dispatcher's choice have the processor at every tick.  Then the
    work of task `i` up to any tick `r` is done within one period of `r`.
   */
  lemma AdmittedTasksMeetDeadlines(threads: map<int, Thread>, es: seq<Event>, b: nat, x: Execution, i: nat, r: nat)
    returns (f: nat)
    requires Bounded(threads, es, b)
    requires var tasks := Run(Machine, threads, es).tasks;
      i < |tasks| && Sporadic(Claims(tasks), x) && Follows(tasks, x)
    ensures r < f <= r + Run(Machine, threads, es).tasks[i].claim.period
    ensures Pending(x, i, f) == 0
  {
    var s := Run(Machine, threads, es);
    MachineIsIdeal(threads, es, b);
    ReachableLoad(threads, es, b);
    ListedMeansRoom(threads, es, b);
    var h := r + s.tasks[i].claim.period;
    FollowingIsRateMonotonic(s.tasks, x, h);
    f := DeadlineMet(Claims(s.tasks), x, h, i, r);
  }
}
