/**
  The closed loop against the module: its moves are steps of the scheduler, and the condition
  it puts on registrations is the module's own test.
 */
module LoopRuns {
  import opened Load
  import opened Admission
  import opened Scheduler
  import opened Options
  import opened Utilization
  import opened Jiffies
  import opened ClosedLoop
  import Priority

  lemma {:induction false} FindsItself(tasks: seq<Task>, i: nat)
    requires i < |tasks| && Priority.DistinctPids(tasks)
    ensures FindByPid(tasks, tasks[i].pid) == Some(i)
    decreases i
  {
    if i > 0 {
      assert tasks[0].pid != tasks[i].pid;
      FindsItself(tasks[1..], i - 1);
    }
  }

  /** The scheduler's event in a move; a tick has none. */
  ghost function EventsOfMove(l: Loop, m: Move): seq<Event> {
    if !Allowed(l, m) then [] else
    match m
    case Enter(pid, c) => [Event.Register(pid, c)]
    case Return(pid, c, _) => [Event.Register(pid, c)]
    case Activate(i, _) => [Event.Yield(l.s.tasks[i].pid, l.Jiffy())]
    case Finish(i, _) => [Event.Yield(l.s.tasks[i].pid, l.Jiffy())]
    case Expire(i, _) => [Event.Fire(i, l.Jiffy())]
    case Leave(i) => [Event.Deregister(l.s.tasks[i].pid)]
    case Forget => []
    case Round => [Event.Dispatch]
    case Tick => []
  }

  /** With distinct pids, each move is a step of the scheduler, and a tick leaves the scheduler alone. */
  lemma MovesAreEvents(l: Loop, m: Move)
    requires Priority.DistinctPids(l.s.tasks) && l.clock.jiffy > 0
    ensures var es := EventsOfMove(l, m);
      Moved(l, m).s == if es == [] then l.s else Step(Machine, l.s, es[0])
  {
    if Allowed(l, m) {
      match m
      case Activate(i, _) => YieldIsEvent(l, i);
      case Finish(i, _) => YieldIsEvent(l, i);
      case Expire(i, _) => BeforeJiffy(l.Now(), l.clock.jiffy, l.s.tasks[i].timer.value);
      case Leave(i) => FindsItself(l.s.tasks, i);
      case _ =>
    }
  }

  lemma YieldIsEvent(l: Loop, i: nat)
    requires Priority.DistinctPids(l.s.tasks) && l.Now() >= l.clock.jiffy > 0 && i < |l.s.tasks|
    ensures Step(Machine, l.s, Event.Yield(l.s.tasks[i].pid, l.Jiffy())) == YieldStep(l.s, i, l.Jiffy())
  {
    FindsItself(l.s.tasks, i);
    PositiveJiffy(l);
  }

  lemma ClockStays(l: Loop, m: Move)
    ensures Moved(l, m).clock == l.clock
  {
  }

  lemma PidsWithout(tasks: seq<Task>, i: nat)
    requires Priority.DistinctPids(tasks) && i < |tasks|
    ensures Priority.DistinctPids(Without(tasks, i))
  {
    var rest := Without(tasks, i);
    forall j, k | 0 <= j < k < |rest|
      ensures rest[j].pid != rest[k].pid
    {
      assert tasks[if j < i then j else j + 1].pid != tasks[if k < i then k else k + 1].pid;
    }
  }

  lemma SamePids(tasks: seq<Task>, others: seq<Task>)
    requires Priority.DistinctPids(tasks) && |others| == |tasks|
    requires forall i :: 0 <= i < |tasks| ==> others[i].pid == tasks[i].pid
    ensures Priority.DistinctPids(others)
  {
  }

  lemma PidsStayDistinct(l: Loop, m: Move)
    requires Priority.DistinctPids(l.s.tasks)
    ensures Priority.DistinctPids(Moved(l, m).s.tasks)
  {
    if Allowed(l, m) {
      match m
      case Enter(_, _) =>
      case Return(_, _, _) =>
      case Leave(i) => PidsWithout(l.s.tasks, i);
      case _ => SamePids(l.s.tasks, Moved(l, m).s.tasks);
    }
  }

  /** The events in a sequence of moves. */
  ghost function EventsOf(l: Loop, ms: seq<Move>): seq<Event> {
    if ms == [] then [] else
      var front := ms[..|ms| - 1];
      EventsOf(l, front) + EventsOfMove(Loops(l, front), ms[|ms| - 1])
  }

  lemma MoveRuns(threads: map<int, Thread>, fs: seq<Event>, l: Loop, m: Move)
    requires l.s == Run(Machine, threads, fs) && Priority.DistinctPids(l.s.tasks) && l.clock.jiffy > 0
    ensures Moved(l, m).s == Run(Machine, threads, fs + EventsOfMove(l, m))
  {
    var es := EventsOfMove(l, m);
    MovesAreEvents(l, m);
    if es == [] {
      assert fs + es == fs;
    } else {
      assert es == [es[0]];
      RunSnoc(Machine, threads, fs, es[0]);
    }
  }

  lemma EventsOfOne(l: Loop, ms: seq<Move>, m: Move)
    ensures EventsOf(l, ms + [m]) == EventsOf(l, ms) + EventsOfMove(Loops(l, ms), m)
  {
    assert (ms + [m])[..|ms|] == ms;
  }

  lemma OneMoveMore(threads: map<int, Thread>, es: seq<Event>, fs: seq<Event>, l: Loop, m: Move)
    requires l.s == Run(Machine, threads, es + fs) && Priority.DistinctPids(l.s.tasks) && l.clock.jiffy > 0
    ensures Moved(l, m).s == Run(Machine, threads, es + (fs + EventsOfMove(l, m)))
    ensures Priority.DistinctPids(Moved(l, m).s.tasks) && Moved(l, m).clock == l.clock
  {
    ClockStays(l, m);
    PidsStayDistinct(l, m);
    MoveRuns(threads, es + fs, l, m);
    assert es + (fs + EventsOfMove(l, m)) == es + fs + EventsOfMove(l, m);
  }

  ghost predicate RunsAs(threads: map<int, Thread>, es: seq<Event>, l: Loop, ms: seq<Move>) {
    && Loops(l, ms).s == Run(Machine, threads, es + EventsOf(l, ms))
    && Priority.DistinctPids(Loops(l, ms).s.tasks) && Loops(l, ms).clock == l.clock
  }

  lemma RunsOneMore(threads: map<int, Thread>, es: seq<Event>, l: Loop, ms: seq<Move>, m: Move)
    requires RunsAs(threads, es, l, ms) && l.clock.jiffy > 0
    ensures RunsAs(threads, es, l, ms + [m])
  {
    LoopsOne(l, ms, m);
    EventsOfOne(l, ms, m);
    OneMoveMore(threads, es, EventsOf(l, ms), Loops(l, ms), m);
  }

  /** The scheduler of a loop is the scheduler after a run of the module. */
  lemma {:induction false} LoopIsARun(threads: map<int, Thread>, es: seq<Event>, l: Loop, ms: seq<Move>)
    requires l.s == Run(Machine, threads, es) && Priority.DistinctPids(l.s.tasks) && l.clock.jiffy > 0
    ensures RunsAs(threads, es, l, ms)
  {
    if ms == [] {
      assert es + EventsOf(l, ms) == es;
    } else {
      var front, last := ms[..|ms| - 1], ms[|ms| - 1];
      LoopIsARun(threads, es, l, front);
      RunsOneMore(threads, es, l, front, last);
      assert ms == front + [last];
    }
  }

  // ---------------------------------------------------------------------------
  // The module's test as the guard of the loop
  // ---------------------------------------------------------------------------

  /** The slots are those of the listed tasks, each with the task's own gap. */
  ghost predicate NobodyLeft(l: Loop) {
    l.claims == Gaps(l.clock, Claims(l.s.tasks))
  }

  lemma ClaimsStay(tasks: seq<Task>, others: seq<Task>)
    requires |tasks| == |others| && forall i :: 0 <= i < |tasks| ==> others[i].claim == tasks[i].claim
    ensures Claims(tasks) == Claims(others)
  {
  }

  lemma EnterIsListed(l: Loop, pid: int, c: Claim)
    requires NobodyLeft(l) && Admit(Machine, l.s.ledger, c).accepted
    ensures NobodyLeft(Entered(l, pid, c))
  {
    var m := Entered(l, pid, c);
    assert Claims(m.s.tasks) == Claims(l.s.tasks) + [c];
  }

  /** That is so at the start, and whenever the record starts anew; only departures and returns end it. */
  lemma NobodyLeaves(l: Loop, m: Move)
    requires NobodyLeft(l) && !m.Leave? && !m.Return?
    ensures NobodyLeft(Moved(l, m))
  {
    if Allowed(l, m) {
      match m
      case Enter(pid, c) =>
        if Admit(Machine, l.s.ledger, c).accepted {
          EnterIsListed(l, pid, c);
        }
      case Forget =>
      case _ => ClaimsStay(l.s.tasks, Moved(l, m).s.tasks);
    }
  }

  lemma NobodyLeftAnew(clock: Clock, s: Sched, l: Loop)
    ensures NobodyLeft(Start(clock, s)) && NobodyLeft(Anew(l))
  {
  }

  ghost predicate AllWhole(cs: seq<Claim>) {
    forall i :: 0 <= i < |cs| ==> WholeJiffies(cs[i])
  }

  lemma WholeGaps(cs: seq<Claim>)
    requires AllWhole(cs)
    ensures Gaps(ALIGNED, cs) == cs
  {
    forall i | 0 <= i < |cs|
      ensures Gap(ALIGNED, cs[i]) == cs[i]
    {
      WholeGap(cs[i]);
    }
  }

  /**
    Where intervals are exact and activations aligned, and nobody has left since the record
    started, what `Enter` demands of a registration is what the module's own test decides,
    after every run within the bounds.
   */
  lemma AdmissionGuards(threads: map<int, Thread>, es: seq<Event>, b: nat, ms: seq<Move>, pid: int, c: Claim)
    requires Priority.DistinctPids(Run(Machine, threads, es).tasks)
    requires var l := Loops(Start(ALIGNED, Run(Machine, threads, es)), ms);
      NobodyLeft(l) && AllWhole(Claims(l.s.tasks)) && WholeJiffies(c)
    requires Bounded(threads, es + EventsOf(Start(ALIGNED, Run(Machine, threads, es)), ms) + [Event.Register(pid, c)], b)
    ensures var l := Loops(Start(ALIGNED, Run(Machine, threads, es)), ms);
      Admit(Machine, l.s.ledger, c).accepted <==> WithinLimit(l.claims + [Gap(l.clock, c)])
  {
    var start := Start(ALIGNED, Run(Machine, threads, es));
    LoopIsARun(threads, es, start, ms);
    WholeGaps(Claims(Loops(start, ms).s.tasks));
    WholeGap(c);
    GuardAfter(threads, es + EventsOf(start, ms), Loops(start, ms), pid, c, b);
  }

  lemma GuardAfter(threads: map<int, Thread>, fs: seq<Event>, l: Loop, pid: int, c: Claim, b: nat)
    requires l.s == Run(Machine, threads, fs) && l.claims == Claims(l.s.tasks)
    requires Bounded(threads, fs + [Event.Register(pid, c)], b)
    ensures Admit(Machine, l.s.ledger, c).accepted <==> WithinLimit(l.claims + [c])
  {
    assert PositivePeriods(fs + [Event.Register(pid, c)]) by {
      var gs := fs + [Event.Register(pid, c)];
      assert forall n :: 0 <= n < |gs| ==> Modest(gs[n], b);
    }
    DecidedByTheList(Machine, threads, fs, pid, c, b);
    TotalAppend(l.claims, c);
  }
}
