/**
  The scheduler module as it is written: a list of task structures updated in place, a
  current-task pointer, and the two words of the running fraction.  Every entry point is
  proved to perform the corresponding step of the state machine on what the objects hold.
 */
module Mp2 {
  import Sch = Scheduler
  import opened Load
  import opened Admission
  import opened Options

  /** One `mp2_task_struct`. */
  class TaskStruct {
    var pid: int
    var period: nat
    var computation: nat
    var state: Sch.TaskState
    var nextPeriod: nat
    var timer: Option<nat>

    constructor (pid: int, period: nat, computation: nat)
      ensures View() == Sch.Task(pid, Claim(period, computation), Sch.Sleeping, 0, None)
    {
      this.pid, this.period, this.computation := pid, period, computation;
      state, nextPeriod, timer := Sch.Sleeping, 0, None;
    }

    function View(): Sch.Task
      reads this
    {
      Sch.Task(pid, Claim(period, computation), state, nextPeriod, timer)
    }
  }

  ghost function Views(ts: seq<TaskStruct>): (vs: seq<Sch.Task>)
    reads ts
    ensures |vs| == |ts| && forall i :: 0 <= i < |ts| ==> vs[i] == ts[i].View()
  {
    seq(|ts|, i requires 0 <= i < |ts| reads ts => ts[i].View())
  }

  ghost predicate FirstWith(vs: seq<Sch.Task>, pid: int, i: nat) {
    i < |vs| && vs[i].pid == pid && forall j :: 0 <= j < i ==> vs[j].pid != pid
  }

  ghost predicate Unlisted(vs: seq<Sch.Task>, pid: int) {
    forall j :: 0 <= j < |vs| ==> vs[j].pid != pid
  }

  /** The state machine looks up the same entry. */
  lemma {:induction false} LookupAgrees(vs: seq<Sch.Task>, pid: int)
    ensures Unlisted(vs, pid) <==> Sch.FindByPid(vs, pid).None?
    ensures forall i: nat :: FirstWith(vs, pid, i) <==> Sch.FindByPid(vs, pid) == Some(i)
  {
    if vs != [] && vs[0].pid != pid {
      LookupAgrees(vs[1..], pid);
      forall i: nat
        ensures FirstWith(vs, pid, i) <==> i > 0 && FirstWith(vs[1..], pid, i - 1)
      {
        assert forall j :: 1 <= j < |vs| ==> vs[1..][j - 1] == vs[j];
      }
      if Unlisted(vs[1..], pid) {
        assert forall j :: 1 <= j < |vs| ==> vs[1..][j - 1] == vs[j];
      }
    }
  }

  /** A task asleep, with its timer armed for its next release. */
  function Sleeper(s: Sch.Sched, i: nat): Sch.Sched
    requires i < |s.tasks|
  {
    var z := Sch.SleepStep(s, i);
    z.(tasks := z.tasks[i := z.tasks[i].(timer := Some(s.tasks[i].nextPeriod))])
  }

  /** Advancing the release, after a sleep if the next one is not yet due, completes a later yield. */
  lemma AdvanceYields(s: Sch.Sched, y: Sch.Sched, z: Sch.Sched, i: nat, now: nat)
    requires i < |s.tasks| && 0 < s.tasks[i].nextPeriod
    requires y == if now < s.tasks[i].nextPeriod then Sleeper(s, i) else s
    requires z == Advanced(y, i)
    ensures z.(wake := true) == Sch.YieldStep(s, i, now)
  {
  }

  function Advanced(s: Sch.Sched, i: nat): Sch.Sched
    requires i < |s.tasks|
  {
    var t := s.tasks[i];
    s.(tasks := s.tasks[i := t.(nextPeriod := t.nextPeriod + Sch.Interval(t.claim.period))])
  }

  class Module {
    var head: seq<TaskStruct>
    var currTask: TaskStruct?
    var numerator: nat
    var denominator: nat
    var wake: bool
    var threads: map<int, Sch.Thread>
    ghost var curr: Option<nat>  // where `currTask` is in the list

    ghost predicate Valid()
      reads this
    {
      && Distinct(head)
      && (curr.None? <==> currTask == null)
      && (curr.Some? ==> curr.value < |head| && head[curr.value] == currTask)
    }

    ghost function View(): Sch.Sched
      reads this, head
    {
      Sch.Sched(Views(head), curr, Ledger(numerator, denominator), wake, threads)
    }

    constructor (threads: map<int, Sch.Thread>)
      ensures Valid() && View() == Sch.Init(threads)
    {
      head, currTask, curr, numerator, denominator, wake := [], null, None, 0, 0, true;
      this.threads := threads;
    }

    /** Returns 0 if the task set stays admissible; with `flag` 1 it takes a claim out instead. */
    method AdmissionControl(period: nat, computation: nat, flag: int) returns (ret: int)
      modifies this`numerator, this`denominator
      ensures flag == 1 ==>
        ret == 1 && Ledger(numerator, denominator) == Retire(Machine, old(Ledger(numerator, denominator)), Claim(period, computation))
      ensures flag != 1 ==>
        var v := Admit(Machine, old(Ledger(numerator, denominator)), Claim(period, computation));
        Ledger(numerator, denominator) == v.ledger && ret == if v.accepted then 0 else 1
    {
      ret := 1;
      if flag == 1 {
        if numerator * period % ULONG <= computation * denominator % ULONG {
          numerator := 0;
        } else {
          numerator := numerator * period % ULONG - computation * denominator % ULONG;
          denominator := denominator * period % ULONG;
        }
      } else if numerator == 0 {
        if computation * 1000 % UINT <= 693 * period % UINT {
          ret := 0;
          denominator := period;
          numerator := computation;
        }
      } else {
        var currDen := denominator * period % ULONG;
        var currNum := (numerator * period % ULONG + computation * denominator % ULONG) % ULONG;
        if currNum * 1000 % ULONG <= 693 * currDen % ULONG {
          ret := 0;
          numerator := currNum;
          denominator := currDen;
        }
      }
    }

    method RegEntry(pid: int, period: nat, computation: nat) returns (ret: int)
      requires Valid()
      modifies this
      ensures Valid()
      ensures View() == Sch.RegisterStep(Machine, old(View()), pid, Claim(period, computation))
      ensures ret == 0 <==> |head| == |old(head)| + 1
    {
      ret := AdmissionControl(period, computation, 0);
      if ret != 0 {
        return 1;
      }
      var t := new TaskStruct(pid, period, computation);
      head := head + [t];
      assert Views(head) == old(Views(head)) + [t.View()];
    }

    /** The first entry with the given pid, or null. */
    method FindByPid(pid: int) returns (t: TaskStruct?, ghost i: nat)
      ensures t == null ==> Unlisted(Views(head), pid)
      ensures t != null ==> FirstWith(Views(head), pid, i) && t == head[i]
    {
      i := 0;
      for k := 0 to |head|
        invariant forall j :: 0 <= j < k ==> Views(head)[j].pid != pid
      {
        if head[k].pid == pid {
          return head[k], k;
        }
      }
      t := null;
    }

    /** Returns 1 if the task was put to sleep, 0 if there is none with this pid. */
    method SetTaskSleep(pid: int) returns (ret: int, ghost i: nat)
      requires Valid()
      modifies this`currTask, this`curr, this`threads, head`state
      ensures Valid()
      ensures if Unlisted(old(Views(head)), pid) then ret == 0 && View() == old(View())
        else ret == 1 && FirstWith(old(Views(head)), pid, i) && View() == Sch.SleepStep(old(View()), i)
    {
      var t;
      t, i := FindByPid(pid);
      if t == null {
        return 0, i;
      }
      SleepTask(t, i);
      ret := 1;
    }

    method SleepTask(t: TaskStruct, ghost i: nat)
      requires Valid() && i < |head| && t == head[i]
      modifies this`currTask, this`curr, this`threads, t`state
      ensures Valid() && View() == Sch.SleepStep(old(View()), i)
    {
      if t == currTask {
        currTask, curr := null, None;
      }
      t.state := Sch.Sleeping;
      threads := threads[t.pid := Sch.ThreadOf(threads, t.pid).(runnable := false)];
      assert Views(head) == old(Views(head))[i := t.View()];
    }

    /** The caller names a listed process; the source dereferences what the search returns. */
    method YieldEntry(pid: int, jiffies: nat, ghost i: nat)
      requires Valid() && FirstWith(Views(head), pid, i)
      modifies this`currTask, this`curr, this`threads, this`wake, head
      ensures Valid() && head == old(head)
      ensures View() == Sch.YieldStep(old(View()), i, jiffies)
    {
      var t, k := FindByPid(pid);
      YieldTask(pid, t, i, jiffies);
      WakeDispatcher();
    }

    /** The first yield of a process activates it. */
    method YieldTask(pid: int, t: TaskStruct, ghost i: nat, jiffies: nat)
      requires Valid() && FirstWith(Views(head), pid, i) && t == head[i]
      modifies this`currTask, this`curr, this`threads, head
      ensures Valid() && View().(wake := true) == Sch.YieldStep(old(View()), i, jiffies)
    {
      if t.nextPeriod == 0 {
        Activate(t, i, jiffies);
      } else {
        YieldAgain(pid, t, i, jiffies);
      }
    }

    method WakeDispatcher()
      modifies this`wake
      ensures View() == old(View()).(wake := true)
    {
      wake := true;
    }

    /** A later yield: sleep till the next release unless that is due already. */
    method YieldAgain(pid: int, t: TaskStruct, ghost i: nat, jiffies: nat)
      requires Valid() && FirstWith(Views(head), pid, i) && t == head[i] && t.nextPeriod > 0
      modifies this`currTask, this`curr, this`threads, head`state, t`timer, t`nextPeriod
      ensures Valid() && View().(wake := true) == Sch.YieldStep(old(View()), i, jiffies)
    {
      if jiffies < t.nextPeriod {
        SleepTillNext(pid, t, i);
      }
      ghost var y := View();
      Advance(t, i);
      AdvanceYields(old(View()), y, View(), i, jiffies);
    }

    method SleepTillNext(pid: int, t: TaskStruct, ghost i: nat)
      requires Valid() && FirstWith(Views(head), pid, i) && t == head[i]
      modifies this`currTask, this`curr, this`threads, head`state, t`timer
      ensures Valid() && View() == Sleeper(old(View()), i)
    {
      var ret, k := SetTaskSleep(pid);
      ModTimer(t, i, t.nextPeriod);
    }

    /** The first yield: the first release is now, the next one an interval away. */
    method Activate(t: TaskStruct, ghost i: nat, jiffies: nat)
      requires Valid() && i < |head| && t == head[i]
      modifies t`nextPeriod, t`state
      ensures View() == old(View()).(tasks := old(Views(head))[i :=
        old(t.View()).(nextPeriod := jiffies + Sch.Interval(old(t.period)), state := Sch.Ready)])
    {
      t.nextPeriod := jiffies + t.period * Sch.USER_HZ % UINT / 1000;
      t.state := Sch.Ready;
      assert Views(head) == old(Views(head))[i := t.View()];
    }

    /** Move the next release on by one interval. */
    method Advance(t: TaskStruct, ghost i: nat)
      requires Valid() && i < |head| && t == head[i]
      modifies t`nextPeriod
      ensures View() == Advanced(old(View()), i)
    {
      t.nextPeriod := t.nextPeriod + t.period * Sch.USER_HZ % UINT / 1000;
      assert Views(head) == old(Views(head))[i := t.View()];
    }

    method ModTimer(t: TaskStruct, ghost i: nat, expiry: nat)
      requires Valid() && i < |head| && t == head[i]
      modifies t`timer
      ensures View() == old(View()).(tasks := old(Views(head))[i := old(t.View()).(timer := Some(expiry))])
    {
      t.timer := Some(expiry);
      assert Views(head) == old(Views(head))[i := t.View()];
    }

    /** The timer of a listed task expires. */
    method TmCallback(t: TaskStruct, ghost i: nat)
      requires Valid() && i < |head| && t == head[i]
      modifies this`wake, t`state, t`timer
      ensures Valid() && head == old(head)
      ensures View() == Sch.FireStep(old(View()), i)
    {
      t.timer := None;
      if t.state == Sch.Sleeping {
        t.state := Sch.Ready;
      }
      wake := true;
      assert Views(head) == old(Views(head))[i := t.View()];
    }

    method DeregEntry(pid: int) returns (ret: int, ghost i: nat)
      requires Valid()
      modifies this
      ensures Valid()
      ensures if Unlisted(old(Views(head)), pid) then ret == 1 && View() == old(View())
        else ret == 0 && FirstWith(old(Views(head)), pid, i) && View() == Sch.DeregisterStep(Machine, old(View()), i)
    {
      var t;
      t, i := FindByPid(pid);
      if t == null {
        return 1, i;
      }
      var ignored := AdmissionControl(t.period, t.computation, 1);
      Unlink(t, i);
      ret := 0;
    }

    /** The current-task pointer forgets the task before the task leaves the list. */
    method Unlink(t: TaskStruct, ghost i: nat)
      requires Valid() && i < |head| && t == head[i]
      modifies this`currTask, this`curr, this`head, this`wake
      ensures Valid() && View() == Sch.UnlinkStep(old(View()), i)
    {
      ForgetCurrent(t, i);
      FreeOne(t, i);
      WakeDispatcher();
    }

    method ForgetCurrent(t: TaskStruct, ghost i: nat)
      requires Valid() && i < |head| && t == head[i]
      modifies this`currTask, this`curr
      ensures Valid() && currTask != t
      ensures View() == old(View()).(curr := if old(curr) == Some(i) then None else old(curr))
    {
      if t == currTask {
        currTask, curr := null, None;
      }
    }

    /** Unlink an entry that is not the current task. */
    method FreeOne(t: TaskStruct, ghost i: nat)
      requires Valid() && i < |head| && t == head[i] && t != currTask
      modifies this`head, this`curr
      ensures Valid() && Views(head) == Without(old(Views(head)), i)
      ensures curr == if old(curr).Some? && old(curr).value > i then Some(old(curr).value - 1) else old(curr)
    {
      var k := 0;
      while head[k] != t
        invariant k <= i
        decreases i - k
      {
        k := k + 1;
      }
      head := head[..k] + head[k + 1..];
      curr := if curr.Some? && curr.value > i then Some(curr.value - 1) else curr;
      DistinctWithout(old(head), i);
    }

    /** Give a listed task the processor at real-time priority. */
    method SetNewTask(t: TaskStruct, ghost i: nat)
      requires Valid() && i < |head| && t == head[i]
      modifies this`currTask, this`curr, this`threads, t`state
      ensures Valid() && head == old(head)
      ensures View() == Sch.PromoteStep(old(View()), i)
    {
      WakeProcess(t.pid);
      SetRunning(t, i);
      SetRealTime(t.pid);
      MakeCurrent(t, i);
      Promoted(old(View()), View(), i);
    }

    method MakeCurrent(t: TaskStruct, ghost i: nat)
      requires Valid() && i < |head| && t == head[i]
      modifies this`currTask, this`curr
      ensures Valid() && View() == old(View()).(curr := Some(i))
    {
      currTask, curr := t, Some(i);
    }

    lemma Promoted(s: Sch.Sched, z: Sch.Sched, i: nat)
      requires i < |s.tasks|
      requires var pid := s.tasks[i].pid;
        z == s.(tasks := s.tasks[i := s.tasks[i].(state := Sch.Running)], curr := Some(i),
                threads := s.threads[pid := Sch.Thread(true, Sch.ThreadOf(s.threads, pid).realtime)][pid := Sch.Thread(true, true)])
      ensures z == Sch.PromoteStep(s, i)
    {
      var pid := s.tasks[i].pid;
      assert z.threads == s.threads[pid := Sch.Thread(true, true)];
    }

    method WakeProcess(pid: int)
      modifies this`threads
      ensures View() == old(View()).(threads := old(threads)[pid := Sch.ThreadOf(old(threads), pid).(runnable := true)])
    {
      threads := threads[pid := Sch.ThreadOf(threads, pid).(runnable := true)];
    }

    method SetRealTime(pid: int)
      modifies this`threads
      ensures View() == old(View()).(threads := old(threads)[pid := Sch.ThreadOf(old(threads), pid).(realtime := true)])
    {
      threads := threads[pid := Sch.ThreadOf(threads, pid).(realtime := true)];
    }

    method SetRunning(t: TaskStruct, ghost i: nat)
      requires Valid() && i < |head| && t == head[i]
      modifies t`state
      ensures Valid() && View() == old(View()).(tasks := old(View()).tasks[i := old(t.View()).(state := Sch.Running)])
    {
      t.state := Sch.Running;
      assert Views(head) == old(Views(head))[i := t.View()];
    }

    /** Return a listed task to normal policy. */
    method SetOldTask(t: TaskStruct, ghost i: nat)
      requires Valid() && i < |head| && t == head[i]
      modifies this`threads, t`state
      ensures Valid() && head == old(head)
      ensures View() == Sch.DemoteStep(old(View()), i)
    {
      if t.state == Sch.Running {
        t.state := Sch.Ready;
      }
      threads := threads[t.pid := Sch.ThreadOf(threads, t.pid).(realtime := false)];
      assert Views(head) == old(Views(head))[i := t.View()];
    }

    /** The scan of the dispatcher: the task it selects, or null. */
    method SelectNext() returns (next: TaskStruct?, ghost i: nat)
      ensures next == null ==> Sch.Pick(Views(head)) == None
      ensures next != null ==> i < |head| && next == head[i] && Sch.Pick(Views(head)) == Some(i)
    {
      var minPeriod := Sch.INT_MAX;
      next, i := null, 0;
      for k := 0 to |head|
        invariant next == null ==> minPeriod == Sch.INT_MAX && Sch.Pick(Views(head)[..k]) == None
        invariant next != null ==>
          i < k && next == head[i] && minPeriod == next.period && Sch.Pick(Views(head)[..k]) == Some(i)
      {
        assert Views(head)[..k + 1][..k] == Views(head)[..k];
        if head[k].state != Sch.Sleeping && head[k].period < minPeriod {
          minPeriod, next, i := head[k].period, head[k], k;
        }
      }
      assert Views(head)[..|head|] == Views(head);
    }

    /** One round of the dispatcher thread. */
    method DispatchRound()
      requires Valid()
      modifies this`currTask, this`curr, this`threads, this`wake, head`state
      ensures Valid() && head == old(head)
      ensures View() == Sch.DispatchStep(old(View()))
    {
      var next, i := SelectNext();
      Switch(next, i);
      GoToSleep();
    }

    /** Nothing is to be done without a choice, or if the choice is the current task. */
    method Switch(next: TaskStruct?, ghost i: nat)
      requires Valid() && (next != null ==> i < |head| && next == head[i])
      requires Sch.Pick(Views(head)) == if next == null then None else Some(i)
      modifies this`currTask, this`curr, this`threads, head`state
      ensures Valid() && head == old(head)
      ensures View().(wake := false) == Sch.DispatchStep(old(View()))
    {
      if next != null && currTask != next {
        SwitchTo(next, i);
      }
    }

    /** Demote the current task, if there is one, and promote another. */
    method SwitchTo(next: TaskStruct, ghost i: nat)
      requires Valid() && i < |head| && next == head[i]
      modifies this`currTask, this`curr, this`threads, head`state
      ensures Valid() && head == old(head)
      ensures View() == Sch.PromoteStep(if old(curr).Some? then Sch.DemoteStep(old(View()), old(curr).value) else old(View()), i)
    {
      if currTask != null {
        SetOldTask(currTask, curr.value);
      }
      SetNewTask(next, i);
    }

    /** The dispatcher thread waits for its next wake-up. */
    method GoToSleep()
      modifies this`wake
      ensures View() == old(View()).(wake := false)
    {
      wake := false;
    }
  }
}
