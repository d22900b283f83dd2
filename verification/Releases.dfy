/**
  Releases do not drift: whatever the moments at which a task yields, its next release is
  its activation time plus a whole number of intervals.
 */
module Releases {
  import opened Load
  import opened Admission
  import opened Scheduler
  import opened Options

  /**
    History of one task: when it was activated, how often it has yielded, and at which count
    and at which jiffy its timer was armed.
   */
  datatype Grid = Grid(origin: nat, count: nat, armed: nat, since: nat)

  function YieldGrid(g: Grid, t: Task, now: nat): Grid {
    if t.nextPeriod == 0 then Grid(now, 1, 0, 0)
    else if now < t.nextPeriod then Grid(g.origin, g.count + 1, g.count, now)
    else g.(count := g.count + 1)
  }

  /** A state with the history of each listed task. */
  datatype Traced = Traced(s: Sched, grids: seq<Grid>)

  function TraceStep(a: Arith, h: Traced, e: Event): Traced
    requires |h.grids| == |h.s.tasks|
  {
    var z := Step(a, h.s, e);
    if !Enabled(h.s, e) then h else
    match e
    case Register(_, _) => Traced(z, if |z.tasks| > |h.s.tasks| then h.grids + [Grid(0, 0, 0, 0)] else h.grids)
    case Yield(pid, now) =>
      var i := FindByPid(h.s.tasks, pid).value;
      Traced(z, h.grids[i := YieldGrid(h.grids[i], h.s.tasks[i], now)])
    case Deregister(pid) => Traced(z, Without(h.grids, FindByPid(h.s.tasks, pid).value))
    case Fire(_, _) => Traced(z, h.grids)
    case Dispatch => Traced(z, h.grids)
  }

  lemma TraceSize(a: Arith, h: Traced, e: Event)
    requires |h.grids| == |h.s.tasks|
    ensures TraceStep(a, h, e).s == Step(a, h.s, e)
    ensures |TraceStep(a, h, e).grids| == |TraceStep(a, h, e).s.tasks|
  {
  }

  function Trace(a: Arith, threads: map<int, Thread>, es: seq<Event>): (h: Traced)
    ensures h.s == Run(a, threads, es) && |h.grids| == |h.s.tasks|
  {
    if es == [] then Traced(Init(threads), []) else
      var h := Trace(a, threads, es[..|es| - 1]);
      TraceSize(a, h, es[|es| - 1]);
      TraceStep(a, h, es[|es| - 1])
  }

  /** The k-th point of the grid of a task. */
  function Point(g: Grid, t: Task, k: nat): nat {
    g.origin + k * Interval(t.claim.period)
  }

  /**
    The next release, and the expiry of a pending timer, are points of the task's grid, and
    the timer was armed before it was due.
   */
  ghost predicate OnGrid(g: Grid, t: Task) {
    && (t.nextPeriod == 0 <==> g.count == 0)
    && (g.count > 0 ==> g.origin > 0 && t.nextPeriod == Point(g, t, g.count))
    && (t.timer.Some? ==> 1 <= g.armed < g.count && g.since < t.timer.value == Point(g, t, g.armed))
  }

  ghost predicate AllOnGrid(h: Traced) {
    |h.grids| == |h.s.tasks| && forall i :: 0 <= i < |h.grids| ==> OnGrid(h.grids[i], h.s.tasks[i])
  }

  lemma YieldOnGrid(s: Sched, g: Grid, i: nat, now: nat)
    requires i < |s.tasks| && OnGrid(g, s.tasks[i]) && now > 0
    ensures OnGrid(YieldGrid(g, s.tasks[i], now), YieldStep(s, i, now).tasks[i])
  {
    var d := Interval(s.tasks[i].claim.period);
    assert (g.count + 1) * d == g.count * d + d;
    assert 1 * d == d;
  }

  /**
    The history records what happened: the moment of the first yield, one more yield, and the
    count and the moment at which a timer was armed.
   */
  lemma YieldIsRecorded(a: Arith, h: Traced, e: Event, i: nat)
    requires AllOnGrid(h) && Enabled(h.s, e) && e.Yield? && FindByPid(h.s.tasks, e.pid) == Some(i)
    ensures var g, z, t, u := h.grids[i], TraceStep(a, h, e).grids[i], h.s.tasks[i], Step(a, h.s, e).tasks[i];
      && z.count == g.count + 1 && z.origin == (if g.count == 0 then e.now else g.origin)
      && (g.count > 0 && e.now < t.nextPeriod ==> u.timer.Some? && z.armed == g.count && z.since == e.now)
  {
    assert OnGrid(h.grids[i], h.s.tasks[i]);
  }

  lemma TraceStepOnGrid(a: Arith, h: Traced, e: Event)
    requires AllOnGrid(h)
    ensures AllOnGrid(TraceStep(a, h, e))
  {
    var z := TraceStep(a, h, e);
    TraceSize(a, h, e);
    if Enabled(h.s, e) {
      match e
      case Yield(pid, now) =>
        var i := FindByPid(h.s.tasks, pid).value;
        YieldOnGrid(h.s, h.grids[i], i, now);
      case Deregister(pid) => UnlinkOnGrid(h, z.s, FindByPid(h.s.tasks, pid).value);
      case Dispatch => SameSchedule(h, z.s);
      case Fire(_, _) => SameSchedule(h, z.s);
      case Register(_, _) =>
    }
  }

  lemma UnlinkOnGrid(h: Traced, z: Sched, i: nat)
    requires AllOnGrid(h) && i < |h.grids| && z.tasks == Without(h.s.tasks, i)
    ensures AllOnGrid(Traced(z, Without(h.grids, i)))
  {
    forall j | 0 <= j < |z.tasks|
      ensures OnGrid(Without(h.grids, i)[j], z.tasks[j])
    {
      var k := if j < i then j else j + 1;
      assert OnGrid(h.grids[k], h.s.tasks[k]);
    }
  }

  lemma SameSchedule(h: Traced, z: Sched)
    requires AllOnGrid(h) && |z.tasks| == |h.s.tasks|
    requires forall j :: 0 <= j < |z.tasks| ==>
      var t := z.tasks[j];
      t.claim == h.s.tasks[j].claim && t.nextPeriod == h.s.tasks[j].nextPeriod
      && (t.timer == h.s.tasks[j].timer || t.timer == None)
    ensures AllOnGrid(Traced(z, h.grids))
  {
    forall j | 0 <= j < |h.grids|
      ensures OnGrid(h.grids[j], z.tasks[j])
    {
      assert OnGrid(h.grids[j], h.s.tasks[j]);
    }
  }

  /** In every run, every listed task stays on its grid. */
  lemma {:induction false} ReleasesDoNotDrift(a: Arith, threads: map<int, Thread>, es: seq<Event>)
    ensures AllOnGrid(Trace(a, threads, es))
  {
    if es != [] {
      ReleasesDoNotDrift(a, threads, es[..|es| - 1]);
      TraceStepOnGrid(a, Trace(a, threads, es[..|es| - 1]), es[|es| - 1]);
    }
  }
}
