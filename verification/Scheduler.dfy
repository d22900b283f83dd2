/**
  The rate-monotonic scheduler as a state machine over values.

  Each entry point of the module is one atomic step: registration, yield, timer expiry,
  one round of the dispatcher thread, and deregistration.  The current-task pointer is an
  index in the task list.  A run is any sequence of events; an event that cannot occur in
  a state leaves it unchanged.
 */
module Scheduler {
  import opened Load
  import opened Admission
  import opened Options

  const INT_MAX: nat := 0x7fff_ffff
  const USER_HZ: nat := 100

  datatype TaskState = Sleeping | Ready | Running

  /** A list entry.  `nextPeriod` is 0 until the first yield; `timer` is the expiry of a pending timer. */
  datatype Task = Task(pid: int, claim: Claim, state: TaskState, nextPeriod: nat, timer: Option<nat>)

  /** What the kernel knows of a process: whether it can run, and whether it is at SCHED_FIFO 99. */
  datatype Thread = Thread(runnable: bool, realtime: bool)

  /** `wake` says that a wake-up of the dispatcher thread is outstanding. */
  datatype Sched = Sched(
    tasks: seq<Task>,
    curr: Option<nat>,
    ledger: Ledger,
    wake: bool,
    threads: map<int, Thread>)

  datatype Event =
    | Register(pid: int, claim: Claim)
    | Yield(pid: int, now: nat)
    | Fire(index: nat, now: nat)
    | Dispatch
    | Deregister(pid: int)

  /** A period in milliseconds as jiffies, in 32-bit arithmetic. */
  function Interval(period: nat): nat {
    UInt(Machine, period * USER_HZ) / 1000
  }

  function ThreadOf(threads: map<int, Thread>, pid: int): Thread {
    if pid in threads then threads[pid] else Thread(true, false)
  }

  /** The first entry with the given pid. */
  function FindByPid(tasks: seq<Task>, pid: int): (r: Option<nat>)
    ensures r.Some? ==> r.value < |tasks| && tasks[r.value].pid == pid
  {
    if tasks == [] then None
    else if tasks[0].pid == pid then Some(0)
    else match FindByPid(tasks[1..], pid)
      case None => None
      case Some(i) => Some(i + 1)
  }

  /** A task the dispatcher may choose: its search starts from INT_MAX with a strict comparison. */
  predicate Eligible(t: Task) {
    t.state != Sleeping && t.claim.period < INT_MAX
  }

  /** The dispatcher's scan, left to right, keeping the smallest period so far. */
  function Pick(tasks: seq<Task>): (r: Option<nat>)
    ensures r.Some? ==> r.value < |tasks| && Eligible(tasks[r.value])
  {
    if tasks == [] then None else
      var n := |tasks| - 1;
      var best := Pick(tasks[..n]);
      var least := if best.Some? then tasks[best.value].claim.period else INT_MAX;
      if tasks[n].state != Sleeping && tasks[n].claim.period < least then Some(n) else best
  }

  function RegisterStep(a: Arith, s: Sched, pid: int, c: Claim): Sched {
    var v := Admit(a, s.ledger, c);
    if !v.accepted then s else
      s.(ledger := v.ledger, tasks := s.tasks + [Task(pid, c, Sleeping, 0, None)])
  }

  /** Put a task to sleep: it loses the processor, and its process stops being runnable. */
  function SleepStep(s: Sched, i: nat): Sched
    requires i < |s.tasks|
  {
    var t := s.tasks[i];
    s.(curr := if s.curr == Some(i) then None else s.curr,
       tasks := s.tasks[i := t.(state := Sleeping)],
       threads := s.threads[t.pid := ThreadOf(s.threads, t.pid).(runnable := false)])
  }

  function YieldStep(s: Sched, i: nat, now: nat): Sched
    requires i < |s.tasks|
  {
    var t := s.tasks[i];
    var d := Interval(t.claim.period);
    if t.nextPeriod == 0 then
      s.(tasks := s.tasks[i := t.(nextPeriod := now + d, state := Ready)], wake := true)
    else if now < t.nextPeriod then
      var z := SleepStep(s, i);
      z.(tasks := z.tasks[i := z.tasks[i].(timer := Some(t.nextPeriod), nextPeriod := t.nextPeriod + d)],
         wake := true)
    else
      s.(tasks := s.tasks[i := t.(nextPeriod := t.nextPeriod + d)], wake := true)
  }

  function FireStep(s: Sched, i: nat): Sched
    requires i < |s.tasks|
  {
    var t := s.tasks[i];
    s.(tasks := s.tasks[i := t.(timer := None, state := if t.state == Sleeping then Ready else t.state)],
       wake := true)
  }

  /** Take a task off the list; the pointer keeps pointing at the task it pointed at. */
  function UnlinkStep(s: Sched, i: nat): Sched
    requires i < |s.tasks|
  {
    s.(tasks := Without(s.tasks, i),
       curr := if s.curr.Some? && s.curr.value > i then Some(s.curr.value - 1)
               else if s.curr == Some(i) then None else s.curr,
       wake := true)
  }

  function DeregisterStep(a: Arith, s: Sched, i: nat): Sched
    requires i < |s.tasks|
  {
    UnlinkStep(s.(ledger := Retire(a, s.ledger, s.tasks[i].claim)), i)
  }

  /** Demote the current task to normal policy. */
  function DemoteStep(s: Sched, i: nat): Sched
    requires i < |s.tasks|
  {
    var t := s.tasks[i];
    s.(tasks := s.tasks[i := t.(state := if t.state == Running then Ready else t.state)],
       threads := s.threads[t.pid := ThreadOf(s.threads, t.pid).(realtime := false)])
  }

  /** Give the processor to a task, at real-time priority. */
  function PromoteStep(s: Sched, i: nat): Sched
    requires i < |s.tasks|
  {
    var t := s.tasks[i];
    s.(tasks := s.tasks[i := t.(state := Running)],
       threads := s.threads[t.pid := Thread(true, true)],
       curr := Some(i))
  }

  /** One round of the dispatcher thread, which then sleeps until woken. */
  function DispatchStep(s: Sched): Sched {
    var next := Pick(s.tasks);
    if next.Some? && s.curr != next then
      var z := if s.curr.Some? && s.curr.value < |s.tasks| then DemoteStep(s, s.curr.value) else s;
      PromoteStep(z, next.value).(wake := false)
    else
      s.(wake := false)
  }

  /** Time is positive, a yield names a listed task, timers fire when due, and the dispatcher runs when woken. */
  predicate Enabled(s: Sched, e: Event) {
    match e
    case Register(_, _) => true
    case Yield(pid, now) => now > 0 && FindByPid(s.tasks, pid).Some?
    case Fire(i, now) => i < |s.tasks| && s.tasks[i].timer.Some? && s.tasks[i].timer.value <= now
    case Dispatch => s.wake
    case Deregister(pid) => FindByPid(s.tasks, pid).Some?
  }

  function Step(a: Arith, s: Sched, e: Event): Sched {
    if !Enabled(s, e) then s else
    match e
    case Register(pid, c) => RegisterStep(a, s, pid, c)
    case Yield(pid, now) => YieldStep(s, FindByPid(s.tasks, pid).value, now)
    case Fire(i, _) => FireStep(s, i)
    case Dispatch => DispatchStep(s)
    case Deregister(pid) => DeregisterStep(a, s, FindByPid(s.tasks, pid).value)
  }

  /** The module as loaded: nothing listed, the dispatcher thread just woken. */
  function Init(threads: map<int, Thread>): Sched {
    Sched([], None, Ledger(0, 0), true, threads)
  }

  function Run(a: Arith, threads: map<int, Thread>, es: seq<Event>): Sched {
    if es == [] then Init(threads) else Step(a, Run(a, threads, es[..|es| - 1]), es[|es| - 1])
  }

  lemma RunSnoc(a: Arith, threads: map<int, Thread>, es: seq<Event>, e: Event)
    ensures Run(a, threads, es + [e]) == Step(a, Run(a, threads, es), e)
  {
    assert (es + [e])[..|es|] == es;
  }
}
