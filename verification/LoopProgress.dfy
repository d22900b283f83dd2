/**
  Time never stops: from every state of the closed loop that is in time, moves of the present
  millisecond lead to the next tick.
 */
module LoopProgress {
  import opened Load
  import opened Scheduler
  import opened Options
  import opened Consistency
  import opened Jiffies
  import opened ClosedLoop

  /** The same loop but for the state of task `i` and its slot. */
  ghost predicate OthersAsBefore(l: Loop, m: Loop, i: nat) {
    && m.clock == l.clock && m.slots == l.slots && m.Now() == l.Now() && |m.s.tasks| == |l.s.tasks|
    && forall j: nat :: j < |l.s.tasks| && j != i ==> m.s.tasks[j] == l.s.tasks[j] && (Settled(l, j) ==> Settled(m, j))
  }

  ghost predicate DoneEarly(l: Loop, i: nat)
    requires i < |l.s.tasks|
  {
    l.s.tasks[i].state != Sleeping && !Busy(l, l.Slot(i)) && l.Now() < l.At(l.s.tasks[i].nextPeriod)
  }

  lemma FinishAllowed(l: Loop, i: nat)
    requires InTime(l) && i < |l.s.tasks| && l.s.tasks[i].state != Sleeping && !Busy(l, l.Slot(i))
    ensures Allowed(l, Finish(i, 0)) && l.Now() >= l.clock.jiffy > 0
  {
    assert TaskAgrees(l.s.tasks[i], l.s.curr == Some(i));
  }

  lemma FinishSleeps(l: Loop, i: nat)
    requires InTime(l) && i < |l.s.tasks| && DoneEarly(l, i)
    ensures var z := YieldStep(l.s, i, l.Jiffy());
      Moved(l, Finish(i, 0)) == l.(s := z) && InTime(l.(s := z)) && PutsToSleep(l.s, z, i)
  {
    FinishAllowed(l, i);
    SleepKeeps(l, i);
    PositiveJiffy(l);
    YieldPutsToSleep(l.s, i, l.Jiffy());
  }

  /** An awake task without work and before its next release goes to sleep. */
  lemma SettleEarly(l: Loop, i: nat)
    requires InTime(l) && i < |l.s.tasks| && DoneEarly(l, i)
    ensures var m := Moved(l, Finish(i, 0)); InTime(m) && OthersAsBefore(l, m, i) && Settled(m, i)
  {
    FinishSleeps(l, i);
    SameExecution(l, YieldStep(l.s, i, l.Jiffy()), i);
  }

  lemma SameExecution(l: Loop, z: Sched, i: nat)
    requires OnlyAt(l.s, z, i)
    ensures OthersAsBefore(l, l.(s := z), i)
  {
    var m := l.(s := z);
    assert Exec(m) == Exec(l);
    forall j: nat | j < |l.s.tasks| && j != i && Settled(l, j)
      ensures Settled(m, j)
    {
      assert Busy(m, l.Slot(j)) == Busy(l, l.Slot(j));
    }
  }

  /** A move that releases an empty job wakes task `i` up to its next release, and changes no other task. */
  lemma EmptyJob(l: Loop, z: Sched, i: nat)
    requires InTime(l) && OnlyAt(l.s, z, i) && !Busy(l, l.Slot(i))
    requires ReleasedBefore(l, l.Slot(i), Gap(l.clock, l.s.tasks[i].claim).period, l.Now())
    ensures var m := Release(l, z, l.Slot(i), 0); OthersAsBefore(l, m, i) && !Busy(m, l.Slot(i))
  {
    var m := Release(l, z, l.Slot(i), 0);
    ReleaseEffect(l, z, l.Slot(i), 0);
    forall j: nat | j < |l.s.tasks| && j != i && Settled(l, j)
      ensures Settled(m, j)
    {
      assert l.Slot(j) != l.Slot(i);
    }
  }

  /** The move that is due at a release: the expiry of the timer, or the yield of a task that is done just in time. */
  function DueMove(l: Loop, i: nat): Move
    requires i < |l.s.tasks|
  {
    if l.s.tasks[i].state == Sleeping then Expire(i, 0) else Finish(i, 0)
  }

  lemma ExpireWakes(l: Loop, i: nat)
    requires InTime(l) && i < |l.s.tasks| && !Settled(l, i) && l.s.tasks[i].state == Sleeping
    ensures var z := FireStep(l.s, i); var m := Release(l, z, l.Slot(i), 0);
      Moved(l, Expire(i, 0)) == m && InTime(m) && OnlyAt(l.s, z, i)
      && z.tasks[i].state != Sleeping && l.Now() < l.At(z.tasks[i].nextPeriod)
    ensures !Busy(l, l.Slot(i)) && ReleasedBefore(l, l.Slot(i), Gap(l.clock, l.s.tasks[i].claim).period, l.Now())
  {
    var t := l.s.tasks[i];
    assert TaskOnTime(l, t, l.Slot(i)) && TaskAgrees(t, l.s.curr == Some(i));
    assert SlotMatches(l.clock, t, l.claims[l.slots[i]]);
    IntervalOfGap(l.clock, t.claim);
    assert Allowed(l, Expire(i, 0));
    ExpireKeeps(l, i, 0);
  }

  lemma YieldAdvances(l: Loop, i: nat)
    requires Shaped(l) && i < |l.s.tasks| && l.s.tasks[i].state != Sleeping && 0 < l.s.tasks[i].nextPeriod
    requires l.Now() == l.At(l.s.tasks[i].nextPeriod) && l.Jiffy() == l.s.tasks[i].nextPeriod
    ensures var z := YieldStep(l.s, i, l.Jiffy());
      OnlyAt(l.s, z, i) && z.tasks[i].state != Sleeping && l.Now() < l.At(z.tasks[i].nextPeriod)
  {
    var t := l.s.tasks[i];
    assert SlotMatches(l.clock, t, l.claims[l.slots[i]]);
    TimesAdd(t.nextPeriod, Interval(t.claim.period), l.clock.jiffy);
  }

  lemma YieldGoesOn(l: Loop, i: nat)
    requires InTime(l) && i < |l.s.tasks| && !Settled(l, i)
    requires l.s.tasks[i].state != Sleeping && l.Now() == l.At(l.s.tasks[i].nextPeriod)
    ensures var z := YieldStep(l.s, i, l.Jiffy()); var m := Release(l, z, l.Slot(i), 0);
      Moved(l, Finish(i, 0)) == m && InTime(m) && OnlyAt(l.s, z, i)
      && z.tasks[i].state != Sleeping && l.Now() < l.At(z.tasks[i].nextPeriod)
    ensures !Busy(l, l.Slot(i)) && ReleasedBefore(l, l.Slot(i), Gap(l.clock, l.s.tasks[i].claim).period, l.Now())
  {
    assert TaskOnTime(l, l.s.tasks[i], l.Slot(i)) && TaskAgrees(l.s.tasks[i], l.s.curr == Some(i));
    FinishAllowed(l, i);
    YieldAtRelease(l, i, 0);
    YieldAdvances(l, i);
  }

  lemma SettleDue(l: Loop, i: nat)
    requires InTime(l) && i < |l.s.tasks| && !Settled(l, i)
    requires l.s.tasks[i].state == Sleeping || l.Now() == l.At(l.s.tasks[i].nextPeriod)
    ensures var m := Moved(l, DueMove(l, i));
      InTime(m) && OthersAsBefore(l, m, i) && DoneEarly(m, i)
  {
    if l.s.tasks[i].state == Sleeping {
      ExpireWakes(l, i);
      EmptyJob(l, FireStep(l.s, i), i);
    } else {
      YieldGoesOn(l, i);
      EmptyJob(l, YieldStep(l.s, i, l.Jiffy()), i);
    }
  }

  lemma SettleLast(l: Loop, m: Loop, i: nat)
    requires OthersAsBefore(l, m, i) && i < |l.s.tasks| && InTime(m) && DoneEarly(m, i)
    ensures var z := Moved(m, Finish(i, 0)); InTime(z) && OthersAsBefore(l, z, i) && Settled(z, i)
  {
    SettleEarly(m, i);
  }

  /** After the moves `ms`, more moves settle task `i` and change no other. */
  lemma SettleOne(l: Loop, ms: seq<Move>, i: nat) returns (ns: seq<Move>)
    requires InTime(Loops(l, ms)) && i < |Loops(l, ms).s.tasks| && Tick !in ms
    ensures var m := Loops(l, ns); InTime(m) && OthersAsBefore(Loops(l, ms), m, i) && Settled(m, i)
    ensures Tick !in ns
  {
    ns := ms;
    if !Settled(Loops(l, ms), i) {
      ns := Wake(l, ms, i);
      SettleLast(Loops(l, ms), Loops(l, ns), i);
      LoopsOne(l, ns, Finish(i, 0));
      ns := ns + [Finish(i, 0)];
    }
  }

  lemma Wake(l: Loop, ms: seq<Move>, i: nat) returns (ns: seq<Move>)
    requires InTime(Loops(l, ms)) && i < |Loops(l, ms).s.tasks| && !Settled(Loops(l, ms), i) && Tick !in ms
    ensures var m := Loops(l, ns); InTime(m) && OthersAsBefore(Loops(l, ms), m, i) && DoneEarly(m, i)
    ensures Tick !in ns
  {
    var m := Loops(l, ms);
    ns := ms;
    if !DoneEarly(m, i) {
      NotEarlyIsDue(m, i);
      SettleDue(m, i);
      LoopsOne(l, ms, DueMove(m, i));
      ns := ms + [DueMove(m, i)];
    }
  }

  lemma NotEarlyIsDue(l: Loop, i: nat)
    requires InTime(l) && i < |l.s.tasks| && !Settled(l, i) && !DoneEarly(l, i)
    ensures l.s.tasks[i].state == Sleeping || l.Now() == l.At(l.s.tasks[i].nextPeriod)
  {
    var t := l.s.tasks[i];
    assert TaskOnTime(l, t, l.Slot(i)) && TaskAgrees(t, l.s.curr == Some(i));
  }

  /** The first `n` tasks are settled, at the same time and with as many tasks. */
  ghost predicate SettledUpTo(l: Loop, m: Loop, n: nat) {
    && InTime(m) && m.Now() == l.Now() && n <= |m.s.tasks| == |l.s.tasks|
    && forall i :: 0 <= i < n ==> Settled(m, i)
  }

  lemma SettleNext(l: Loop, m: Loop, z: Loop, n: nat)
    requires SettledUpTo(l, m, n) && n < |m.s.tasks|
    requires InTime(z) && OthersAsBefore(m, z, n) && Settled(z, n)
    ensures SettledUpTo(l, z, n + 1)
  {
  }

  /** After moves that settle the first `n` tasks, more moves settle the next one. */
  lemma SettleMore(l: Loop, ms: seq<Move>, n: nat) returns (ns: seq<Move>)
    requires SettledUpTo(l, Loops(l, ms), n) && n < |l.s.tasks| && Tick !in ms
    ensures SettledUpTo(l, Loops(l, ns), n + 1) && Tick !in ns
  {
    ns := SettleOne(l, ms, n);
    SettleNext(l, Loops(l, ms), Loops(l, ns), n);
  }

  lemma NothingSettled(l: Loop)
    requires InTime(l)
    ensures SettledUpTo(l, Loops(l, []), 0)
  {
  }

  lemma {:induction false} SettleAll(l: Loop, n: nat) returns (ms: seq<Move>)
    requires InTime(l) && n <= |l.s.tasks|
    ensures SettledUpTo(l, Loops(l, ms), n) && Tick !in ms
  {
    if n == 0 {
      ms := [];
      NothingSettled(l);
    } else {
      var first := SettleAll(l, n - 1);
      ms := SettleMore(l, first, n - 1);
    }
  }

  lemma RoundSettles(l: Loop)
    requires Consistent(l.s) && l.s.wake && forall i :: 0 <= i < |l.s.tasks| ==> Settled(l, i)
    ensures Allowed(Moved(l, Round), Tick)
  {
    var z := Moved(l, Round);
    DispatchInstallsChoice(l.s);
    assert Exec(z) == Exec(l);
    forall i: nat | i < |z.s.tasks|
      ensures Settled(z, i)
    {
      assert Settled(l, i) && Busy(z, z.Slot(i)) == Busy(l, l.Slot(i));
    }
  }

  lemma RoundThenTick(l: Loop, ms: seq<Move>)
    requires SettledUpTo(l, Loops(l, ms), |l.s.tasks|) && Loops(l, ms).s.wake
    ensures Loops(l, ms + [Round]).Now() == l.Now() && Allowed(Loops(l, ms + [Round]), Tick)
  {
    RoundSettles(Loops(l, ms));
    LoopsOne(l, ms, Round);
  }

  /** From every state in time, moves of the present millisecond lead to the next tick. */
  lemma TickIsReachable(l: Loop) returns (ms: seq<Move>)
    requires InTime(l)
    ensures Tick !in ms && Loops(l, ms).Now() == l.Now() && Allowed(Loops(l, ms), Tick)
  {
    ms := SettleAll(l, |l.s.tasks|);
    if Loops(l, ms).s.wake {
      RoundThenTick(l, ms);
      ms := ms + [Round];
    }
  }
}
