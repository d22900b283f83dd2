/**
  What every run of the scheduler keeps: the list, the current-task pointer, the timers and
  the dispatcher's pending wake-up agree.
 */
module Consistency {
  import opened Load
  import opened Admission
  import opened Scheduler
  import opened Options

  // ---------------------------------------------------------------------------
  // The dispatcher's choice
  // ---------------------------------------------------------------------------

  /** The first listed among the eligible tasks of smallest period; none if no task is eligible. */
  ghost predicate IsRateMonotonicChoice(tasks: seq<Task>, r: Option<nat>) {
    match r
    case None => forall j :: 0 <= j < |tasks| ==> !Eligible(tasks[j])
    case Some(i) =>
      && i < |tasks| && Eligible(tasks[i])
      && (forall j :: 0 <= j < |tasks| && Eligible(tasks[j]) ==> tasks[i].claim.period <= tasks[j].claim.period)
      && (forall j :: 0 <= j < i && Eligible(tasks[j]) ==> tasks[i].claim.period < tasks[j].claim.period)
  }

  lemma {:induction false} PickIsChoice(tasks: seq<Task>)
    ensures IsRateMonotonicChoice(tasks, Pick(tasks))
  {
    if tasks != [] {
      var n := |tasks| - 1;
      var front := tasks[..n];
      PickIsChoice(front);
      assert forall j :: 0 <= j < n ==> front[j] == tasks[j];
    }
  }

  lemma ChoiceIsUnique(tasks: seq<Task>, q: Option<nat>, r: Option<nat>)
    requires IsRateMonotonicChoice(tasks, q) && IsRateMonotonicChoice(tasks, r)
    ensures q == r
  {
  }

  /** The choice depends only on which tasks are eligible and on their periods. */
  lemma PickDependsOnEligible(tasks: seq<Task>, others: seq<Task>)
    requires |tasks| == |others|
    requires forall j :: 0 <= j < |tasks| ==>
      tasks[j].claim == others[j].claim && (tasks[j].state == Sleeping <==> others[j].state == Sleeping)
    ensures Pick(tasks) == Pick(others)
  {
    PickIsChoice(tasks);
    PickIsChoice(others);
    assert forall j :: 0 <= j < |tasks| ==> Eligible(tasks[j]) == Eligible(others[j]);
    ChoiceIsUnique(tasks, Pick(tasks), Pick(others));
  }

  // ---------------------------------------------------------------------------
  // The invariant
  // ---------------------------------------------------------------------------

  /**
    A task runs exactly if it is the current one, a never-activated task sleeps, and a timer
    is pending exactly for an activated task that sleeps.
   */
  ghost predicate TaskAgrees(t: Task, current: bool) {
    && (t.state == Running <==> current)
    && (t.nextPeriod == 0 ==> t.state == Sleeping)
    && (t.timer.Some? <==> t.nextPeriod > 0 && t.state == Sleeping)
  }

  ghost predicate ListAgrees(s: Sched) {
    && (s.curr.Some? ==> s.curr.value < |s.tasks| && s.tasks[s.curr.value].claim.period < INT_MAX)
    && forall i :: 0 <= i < |s.tasks| ==> TaskAgrees(s.tasks[i], s.curr == Some(i))
  }

  /** Unless the dispatcher is about to run, the current task is the rate-monotonic choice. */
  ghost predicate Dispatched(s: Sched) {
    s.wake || IsRateMonotonicChoice(s.tasks, s.curr)
  }

  ghost predicate Consistent(s: Sched) {
    ListAgrees(s) && Dispatched(s)
  }

  lemma RegisterKeeps(a: Arith, s: Sched, pid: int, c: Claim)
    requires Consistent(s)
    ensures Consistent(RegisterStep(a, s, pid, c))
  {
    var z := RegisterStep(a, s, pid, c);
    assert forall j :: 0 <= j < |s.tasks| ==> z.tasks[j] == s.tasks[j];
  }

  lemma YieldKeeps(s: Sched, i: nat, now: nat)
    requires Consistent(s) && i < |s.tasks| && now > 0
    ensures Consistent(YieldStep(s, i, now))
  {
    var z := YieldStep(s, i, now);
    assert forall j :: 0 <= j < |s.tasks| && j != i ==> z.tasks[j] == s.tasks[j];
  }

  lemma FireKeeps(s: Sched, i: nat)
    requires Consistent(s) && i < |s.tasks| && s.tasks[i].timer.Some?
    ensures Consistent(FireStep(s, i))
  {
    var z := FireStep(s, i);
    assert TaskAgrees(s.tasks[i], s.curr == Some(i));
    assert forall j :: 0 <= j < |s.tasks| && j != i ==> z.tasks[j] == s.tasks[j];
  }

  lemma UnlinkKeeps(s: Sched, i: nat)
    requires Consistent(s) && i < |s.tasks|
    ensures Consistent(UnlinkStep(s, i))
  {
    var z := UnlinkStep(s, i);
    forall j | 0 <= j < |z.tasks|
      ensures TaskAgrees(z.tasks[j], z.curr == Some(j))
    {
      var k := if j < i then j else j + 1;
      assert TaskAgrees(s.tasks[k], s.curr == Some(k));
    }
  }

  lemma DeregisterKeeps(a: Arith, s: Sched, i: nat)
    requires Consistent(s) && i < |s.tasks|
    ensures Consistent(DeregisterStep(a, s, i))
  {
    UnlinkKeeps(s.(ledger := Retire(a, s.ledger, s.tasks[i].claim)), i);
  }

  /** What one round of the dispatcher does to each task. */
  lemma DispatchAt(s: Sched, j: nat)
    requires ListAgrees(s) && j < |s.tasks|
    ensures |DispatchStep(s).tasks| == |s.tasks|
    ensures var next := Pick(s.tasks);
      DispatchStep(s).tasks[j] ==
        if next.None? || s.curr == next then s.tasks[j]
        else if next == Some(j) then s.tasks[j].(state := Running)
        else if s.curr == Some(j) then s.tasks[j].(state := Ready)
        else s.tasks[j]
  {
    assert TaskAgrees(s.tasks[j], s.curr == Some(j));
  }

  /** The same tasks, of which the same sleep. */
  ghost predicate SameSleepers(tasks: seq<Task>, others: seq<Task>) {
    && |tasks| == |others|
    && forall j :: 0 <= j < |tasks| ==>
         others[j] == tasks[j].(state := others[j].state) && (tasks[j].state == Sleeping <==> others[j].state == Sleeping)
  }

  /** One round installs the rate-monotonic choice and leaves the set of sleeping tasks as it was. */
  lemma DispatchInstallsChoice(s: Sched)
    requires ListAgrees(s)
    ensures var z := DispatchStep(s);
      && SameSleepers(s.tasks, z.tasks) && z.curr == Pick(s.tasks)
      && IsRateMonotonicChoice(z.tasks, z.curr)
  {
    var z, next := DispatchStep(s), Pick(s.tasks);
    PickIsChoice(s.tasks);
    forall j | 0 <= j < |s.tasks|
      ensures z.tasks[j] == s.tasks[j].(state := z.tasks[j].state)
      ensures s.tasks[j].state == Sleeping <==> z.tasks[j].state == Sleeping
    {
      DispatchAt(s, j);
      assert TaskAgrees(s.tasks[j], s.curr == Some(j));
    }
    assert s.curr.Some? ==> TaskAgrees(s.tasks[s.curr.value], true) && Eligible(s.tasks[s.curr.value]);
    PickDependsOnEligible(s.tasks, z.tasks);
    PickIsChoice(z.tasks);
  }

  lemma DispatchKeeps(s: Sched)
    requires ListAgrees(s)
    ensures Consistent(DispatchStep(s))
  {
    var z := DispatchStep(s);
    DispatchInstallsChoice(s);
    forall j | 0 <= j < |z.tasks|
      ensures TaskAgrees(z.tasks[j], z.curr == Some(j))
    {
      DispatchAt(s, j);
      assert TaskAgrees(s.tasks[j], s.curr == Some(j));
    }
  }

  lemma StepKeeps(a: Arith, s: Sched, e: Event)
    requires Consistent(s)
    ensures Consistent(Step(a, s, e))
  {
    if Enabled(s, e) {
      match e
      case Register(pid, c) => RegisterKeeps(a, s, pid, c);
      case Yield(pid, now) => YieldKeeps(s, FindByPid(s.tasks, pid).value, now);
      case Fire(i, _) => FireKeeps(s, i);
      case Dispatch => DispatchKeeps(s);
      case Deregister(pid) => DeregisterKeeps(a, s, FindByPid(s.tasks, pid).value);
    }
  }

  /** Every state of every run is consistent. */
  lemma {:induction false} AlwaysConsistent(a: Arith, threads: map<int, Thread>, es: seq<Event>)
    ensures Consistent(Run(a, threads, es))
  {
    if es != [] {
      AlwaysConsistent(a, threads, es[..|es| - 1]);
      StepKeeps(a, Run(a, threads, es[..|es| - 1]), es[|es| - 1]);
    }
  }

  /** A second round of the dispatcher changes nothing. */
  lemma DispatchIsIdempotent(s: Sched)
    requires Consistent(s)
    ensures DispatchStep(DispatchStep(s)) == DispatchStep(s)
  {
    DispatchInstallsChoice(s);
    var z := DispatchStep(s);
    PickDependsOnEligible(s.tasks, z.tasks);
  }
}
