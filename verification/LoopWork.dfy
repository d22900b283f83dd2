/**
  What each move of the closed loop does to the work of the tasks: releases bring a job of the
  given length, ticks work it off, departures drop it, and nothing else touches it.

  The work of a slot is what is pending and what has just arrived.  The conditions of the moves
  are spelled out, so that these are also statements that the moves can be made.
 */
module LoopWork {
  import opened Load
  import opened Admission
  import opened Scheduler
  import opened Options
  import opened Consistency
  import opened Deadlines
  import opened Jiffies
  import opened ClosedLoop
  import Priority

  function Work(l: Loop, k: nat): int {
    Pending(Exec(l), k, l.Since()) + Exec(l).arrive(k, l.Since())
  }

  /** Slot `k` has work `w` afterwards; time and the work of every other slot are as before. */
  ghost predicate HandsOver(l: Loop, m: Loop, k: nat, w: int) {
    && m.Since() == l.Since() && m.base == l.base
    && Work(m, k) == w
    && forall j: nat :: j != k ==> Work(m, j) == Work(l, j)
  }

  lemma ReleaseHandsOver(l: Loop, s: Sched, k: nat, w: nat)
    requires Past(l) && Ran(l) && k < |l.claims| && !Busy(l, k)
    requires Exec(l).arrive(k, l.Since()) == 0
    ensures HandsOver(l, Release(l, s, k, w), k, w)
  {
    ReleaseEffect(l, s, k, w);
    PendingNonNegative(l.claims, Exec(l), l.Since(), k, l.Since());
  }

  lemma IdleSlot(l: Loop, k: nat, p: nat)
    requires p > 0 && ReleasedBefore(l, k, p, l.Now())
    ensures Exec(l).arrive(k, l.Since()) == 0
  {
  }

  /** The first yield brings a job of any length up to the claim, if the slot has rested and the jiffy is young enough. */
  lemma ActivationBringsJob(l: Loop, i: nat, w: nat)
    requires InTime(l) && i < |l.s.tasks| && l.s.tasks[i].nextPeriod == 0 && w <= l.s.tasks[i].claim.computation
    requires l.Now() >= l.clock.jiffy && l.Now() % l.clock.jiffy <= l.clock.slack
    requires ReleasedBefore(l, l.Slot(i), Gap(l.clock, l.s.tasks[i].claim).period, l.Now())
    ensures HandsOver(l, Moved(l, Activate(i, w)), l.Slot(i), w)
    ensures Moved(l, Activate(i, w)).s.tasks[i].state != Sleeping
  {
    assert TaskOnTime(l, l.s.tasks[i], l.Slot(i)) && SlotMatches(l.clock, l.s.tasks[i], l.claims[l.slots[i]]);
    IntervalOfGap(l.clock, l.s.tasks[i].claim);
    IdleSlot(l, l.Slot(i), Gap(l.clock, l.s.tasks[i].claim).period);
    ReleaseHandsOver(l, YieldStep(l.s, i, l.Jiffy()), l.Slot(i), w);
  }

  /** So does the expiry of a timer that is due. */
  lemma ExpiryBringsJob(l: Loop, i: nat, w: nat)
    requires InTime(l) && i < |l.s.tasks| && w <= l.s.tasks[i].claim.computation
    requires l.s.tasks[i].timer.Some? && l.At(l.s.tasks[i].timer.value) <= l.Now()
    ensures HandsOver(l, Moved(l, Expire(i, w)), l.Slot(i), w)
    ensures Moved(l, Expire(i, w)).s.tasks[i].state != Sleeping
  {
    assert TaskOnTime(l, l.s.tasks[i], l.Slot(i)) && SlotMatches(l.clock, l.s.tasks[i], l.claims[l.slots[i]]);
    assert TaskAgrees(l.s.tasks[i], l.s.curr == Some(i));
    IntervalOfGap(l.clock, l.s.tasks[i].claim);
    IdleSlot(l, l.Slot(i), Gap(l.clock, l.s.tasks[i].claim).period);
    ReleaseHandsOver(l, FireStep(l.s, i), l.Slot(i), w);
  }

  /** And a yield exactly at the next release. */
  lemma LateYieldBringsJob(l: Loop, i: nat, w: nat)
    requires InTime(l) && i < |l.s.tasks| && w <= l.s.tasks[i].claim.computation
    requires l.s.tasks[i].state != Sleeping && !Busy(l, l.Slot(i)) && l.Now() == l.At(l.s.tasks[i].nextPeriod)
    ensures HandsOver(l, Moved(l, Finish(i, w)), l.Slot(i), w)
    ensures Moved(l, Finish(i, w)).s.tasks[i].state != Sleeping
  {
    assert TaskOnTime(l, l.s.tasks[i], l.Slot(i)) && SlotMatches(l.clock, l.s.tasks[i], l.claims[l.slots[i]]);
    assert TaskAgrees(l.s.tasks[i], l.s.curr == Some(i));
    JiffyStarts(l, l.s.tasks[i].nextPeriod);
    IntervalOfGap(l.clock, l.s.tasks[i].claim);
    IdleSlot(l, l.Slot(i), Gap(l.clock, l.s.tasks[i].claim).period);
    ReleaseHandsOver(l, YieldStep(l.s, i, l.Jiffy()), l.Slot(i), w);
  }

  /** An earlier yield puts the task to sleep and brings nothing. */
  lemma EarlyYieldBringsNothing(l: Loop, i: nat, w: nat)
    requires InTime(l) && i < |l.s.tasks| && w <= l.s.tasks[i].claim.computation
    requires l.s.tasks[i].state != Sleeping && !Busy(l, l.Slot(i)) && l.Now() < l.At(l.s.tasks[i].nextPeriod)
    ensures HandsOver(l, Moved(l, Finish(i, w)), l.Slot(i), Work(l, l.Slot(i)))
    ensures Moved(l, Finish(i, w)).s.tasks[i].state == Sleeping
  {
    assert TaskAgrees(l.s.tasks[i], l.s.curr == Some(i));
    SleepKeeps(l, i);
    PositiveJiffy(l);
    assert Exec(Moved(l, Finish(i, w))) == Exec(l);
  }

  /** A tick passes one millisecond, in which the current task, if any, does one unit of its work and no other does any. */
  lemma TickWorksOff(l: Loop, k: nat)
    requires InTime(l) && !l.s.wake && forall i :: 0 <= i < |l.s.tasks| ==> Settled(l, i)
    ensures var m := Moved(l, Tick);
      && m.Now() == l.Now() + 1 && m.Since() == l.Since() + 1
      && Work(m, k) == Work(l, k) - (if l.s.curr.Some? && l.Slot(l.s.curr.value) == k then 1 else 0)
      && (l.s.curr.Some? && l.Slot(l.s.curr.value) == k ==> Work(l, k) > 0)
  {
    var x, y := Exec(l), Exec(Moved(l, Tick));
    TickEffect(l);
    PendingOfPast(x, y, l.Since(), k, l.Since());
    assert y.arrive(k, l.Since() + 1) == 0;
    if l.s.curr.Some? {
      BusyIsEligible(l, l.s.curr.value);
    }
  }

  /** A departure drops the work of its slot and of no other. */
  lemma DepartureDropsWork(l: Loop, i: nat)
    requires InTime(l) && i < |l.s.tasks|
    ensures HandsOver(l, Moved(l, Leave(i)), l.Slot(i), 0)
  {
    CutLeaves(l, l.slots[i]);
    assert Exec(Moved(l, Leave(i))) == Recorded(Cut(l, l.slots[i]), l.served);
  }

  lemma CutLeaves(l: Loop, k: nat)
    requires Shaped(l) && Past(l) && Ran(l) && k < |l.claims|
    ensures var y, now := Recorded(Cut(l, k), l.served), l.Since();
      && Pending(y, k, now) + y.arrive(k, now) == 0
      && forall j: nat :: j != k ==> Pending(y, j, now) + y.arrive(j, now) == Work(l, j)
  {
    if Busy(l, k) {
      var x, y, r := Exec(l), Recorded(Cut(l, k), l.served), LastRelease(Exec(l), k, l.Since());
      LeftOfLastJob(l, k);
      assert LessWork(x, y, k, r, Left(l, k));
      forall j: nat
        ensures Pending(y, j, l.Since()) == Pending(x, j, l.Since()) - if j == k && l.Since() > r then Left(l, k) else 0
      {
        PendingOfLess(x, y, k, r, Left(l, k), j, l.Since());
      }
    } else {
      PendingNonNegative(l.claims, Exec(l), l.Since(), k, l.Since());
    }
  }

  /** Registrations and rounds of the dispatcher bring and take no work. */
  lemma OthersKeepWork(l: Loop, m: Move, k: nat)
    requires m.Enter? || m.Return? || m.Round?
    ensures Moved(l, m).Now() == l.Now() && Moved(l, m).Since() == l.Since() && Work(Moved(l, m), k) == Work(l, k)
  {
    assert Exec(Moved(l, m)) == Exec(l);
  }

  lemma IdleHasNoWork(l: Loop, k: nat)
    requires Ran(l) && k < |l.claims| && !Busy(l, k)
    ensures Work(l, k) == 0
  {
    PendingNonNegative(l.claims, Exec(l), l.Since(), k, l.Since());
  }

  lemma EmptyHasNoWork(l: Loop, k: nat)
    requires l.arrivals == map[] && l.served == []
    ensures Work(l, k) == 0
  {
  }

  /** The record can start anew whenever no slot has work, and then has none either. */
  lemma ForgettingKeepsWork(l: Loop, k: nat)
    requires InTime(l) && forall j: nat :: j < |l.claims| ==> !Busy(l, j)
    ensures Moved(l, Forget).Now() == l.Now() && Moved(l, Forget).s == l.s && Work(Moved(l, Forget), k) == 0
    ensures k < |l.claims| ==> Work(l, k) == 0
  {
    assert Moved(l, Forget) == Anew(l);
    EmptyHasNoWork(Anew(l), k);
    if k < |l.claims| {
      IdleHasNoWork(l, k);
    }
  }

  /** A registration that the module accepts joins the list with a slot of its own and no work. */
  lemma RegistrationJoins(l: Loop, pid: int, c: Claim)
    requires InTime(l) && Priority.Unlisted(l.s, pid) && Regular(l.clock, c)
    requires Admit(Machine, l.s.ledger, c).accepted && WithinLimit(l.claims + [Gap(l.clock, c)])
    ensures var m, n := Moved(l, Enter(pid, c)), |l.s.tasks|;
      && |m.s.tasks| == n + 1 && m.s.tasks[n].pid == pid && m.s.tasks[n].claim == c && m.s.tasks[n].nextPeriod == 0
      && m.Slot(n) == |l.claims| && Work(m, m.Slot(n)) == 0
  {
    UntouchedSlot(l, l.Since());
    assert Exec(Moved(l, Enter(pid, c))) == Exec(l);
    assert Exec(l).arrive(|l.claims|, l.Since()) == 0;
  }

  /** So does one that takes a vacated slot it fits. */
  lemma ReturnJoins(l: Loop, pid: int, c: Claim, k: nat)
    requires InTime(l) && Priority.Unlisted(l.s, pid) && Regular(l.clock, c) && FitsSlot(l, c, k)
    requires Admit(Machine, l.s.ledger, c).accepted
    ensures var m, n := Moved(l, Return(pid, c, k)), |l.s.tasks|;
      && |m.s.tasks| == n + 1 && m.s.tasks[n].pid == pid && m.s.tasks[n].claim == c && m.s.tasks[n].nextPeriod == 0
      && m.Slot(n) == k && Work(m, k) == 0
  {
    IdleHasNoWork(l, k);
    assert Exec(Moved(l, Return(pid, c, k))) == Exec(l);
  }
}
