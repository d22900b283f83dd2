/**
  The scheduler in a loop with its tasks and the clock.

  Time is in milliseconds, and a jiffy is a whole number of them.  Between two ticks of the
  clock any number of moves happen, in any order: a process registers, a listed task is
  activated by its first yield, a task whose job is done yields, a due timer expires, a task
  leaves, the dispatcher runs a round.  A tick happens when no yield, expiry or round is left
  to do; it gives one millisecond to the current task.  Each release brings a job of any
  length up to the claimed computation.

  The result: in every such run no task ever yields after its `next_period`, so every job is
  done before the next one is due.  Two things shorten the time a job has: intervals are whole
  jiffies, and the first one counts from the start of the jiffy of activation.  `slack` bounds
  how far into a jiffy an activation may come.  The list is held to the limit with the time
  that is left: for each task, the milliseconds of its interval less the slack.

  What a task that left has freed may be given away again in two ways: to a task of the same
  interval that does not start before a period has passed since the last job of the one that
  left, and to anyone once the processor has been idle.  `ReentryStarves` shows what happens
  otherwise.
 */
module ClosedLoop {
  import opened Load
  import opened HyperbolicBound
  import opened Admission
  import opened Scheduler
  import opened Options
  import opened Consistency
  import opened Deadlines
  import opened Utilization
  import opened Jiffies
  import Priority

  /** The milliseconds of a jiffy, and how many of them may have passed when a task is activated. */
  datatype Clock = Clock(jiffy: nat, slack: nat)

  /**
    The module's state, the slot of each listed task, the claim of each slot, the work released
    by slot and millisecond, and which slot each past millisecond served.  The record starts
    at millisecond `base`, and its own time is counted from there.
   */
  datatype Loop = Loop(
    clock: Clock,
    base: nat,
    s: Sched,
    slots: seq<nat>,
    claims: seq<Claim>,
    arrivals: map<(nat, nat), nat>,
    served: seq<int>)
  {
    /** The time of the record. */
    function Since(): nat { |served| }

    function Now(): nat { base + |served| }

    function Jiffy(): nat { if clock.jiffy == 0 then 0 else Now() / clock.jiffy }

    /** The millisecond at which jiffy `n` starts. */
    function At(n: nat): nat { Times(n, clock.jiffy) }

    function Slot(i: nat): nat { if i < |slots| then slots[i] else 0 }
  }

  datatype Move =
    | Enter(pid: int, claim: Claim)
    | Return(pid: int, claim: Claim, k: nat)
    | Activate(i: nat, work: nat)
    | Finish(i: nat, work: nat)
    | Expire(i: nat, work: nat)
    | Leave(i: nat)
    | Forget
    | Round
    | Tick

  /** The recorded execution, by slots. */
  function Exec(l: Loop): Execution {
    Recorded(l.arrivals, l.served)
  }

  function Recorded(arrivals: map<(nat, nat), nat>, served: seq<int>): Execution {
    Execution(
      (k: nat, t: nat) => if (k, t) in arrivals then arrivals[(k, t)] else 0,
      (t: nat) => if t < |served| then served[t] else -1)
  }

  predicate Busy(l: Loop, k: nat) {
    Waiting(Exec(l), k, l.Since())
  }

  /** The interval does not wrap and is longer than the slack. */
  predicate Regular(clock: Clock, c: Claim) {
    c.period < INT_MAX && c.period * USER_HZ < UINT && clock.slack < Times(Interval(c.period), clock.jiffy)
  }

  /** What a task asks for in the time that is left for its jobs. */
  function Gap(clock: Clock, c: Claim): Claim {
    var d := Times(Interval(c.period), clock.jiffy);
    Claim(if clock.slack < d then d - clock.slack else 0, c.computation)
  }

  function Gaps(clock: Clock, cs: seq<Claim>): (gs: seq<Claim>)
    ensures |gs| == |cs| && forall i :: 0 <= i < |cs| ==> gs[i] == Gap(clock, cs[i])
  {
    seq(|cs|, i requires 0 <= i < |cs| => Gap(clock, cs[i]))
  }

  predicate WithinLimit(cs: seq<Claim>) {
    Periodic(cs) && Total(cs) <= LIMIT
  }

  /** All recorded jobs of slot `k` were released at least `p` before `limit`. */
  ghost predicate ReleasedBefore(l: Loop, k: nat, p: nat, limit: nat) {
    forall t: nat :: Exec(l).arrive(k, t) > 0 ==> l.base + t + p <= limit
  }

  /** An awake task has work, and a sleeping one a timer that is not due. */
  predicate Settled(l: Loop, i: nat)
    requires i < |l.s.tasks|
  {
    var t := l.s.tasks[i];
    (t.timer.Some? ==> l.Now() < l.At(t.timer.value)) && (t.state != Sleeping ==> Busy(l, l.Slot(i)))
  }

  /** A vacated slot fits a claim with the same gap and at most its computation. */
  predicate FitsSlot(l: Loop, c: Claim, k: nat) {
    && k < |l.claims| && k !in l.slots
    && Gap(l.clock, c).period == l.claims[k].period && c.computation <= l.claims[k].computation
  }

  ghost predicate Allowed(l: Loop, m: Move) {
    var s, now := l.s, l.Now();
    match m
    case Enter(pid, c) =>
      && Priority.Unlisted(s, pid) && Regular(l.clock, c)
      && (Admit(Machine, s.ledger, c).accepted ==> WithinLimit(l.claims + [Gap(l.clock, c)]))
    case Return(pid, c, k) => Priority.Unlisted(s, pid) && Regular(l.clock, c) && FitsSlot(l, c, k)
    case Activate(i, w) =>
      && i < |s.tasks| && now >= l.clock.jiffy > 0 && now % l.clock.jiffy <= l.clock.slack
      && s.tasks[i].nextPeriod == 0 && w <= s.tasks[i].claim.computation
      && ReleasedBefore(l, l.Slot(i), Gap(l.clock, s.tasks[i].claim).period, now)
    case Finish(i, w) =>
      && i < |s.tasks| && now >= l.clock.jiffy && s.tasks[i].state != Sleeping && !Busy(l, l.Slot(i))
      && w <= s.tasks[i].claim.computation
    case Expire(i, w) =>
      i < |s.tasks| && s.tasks[i].timer.Some? && l.At(s.tasks[i].timer.value) <= now && w <= s.tasks[i].claim.computation
    case Leave(i) => i < |s.tasks| && i < |l.slots|
    case Forget => forall k: nat :: k < |l.claims| ==> !Busy(l, k)
    case Round => s.wake
    case Tick => !s.wake && forall i :: 0 <= i < |s.tasks| ==> Settled(l, i)
  }

  /** Hand a job to slot `k` in the current millisecond. */
  function Release(l: Loop, s: Sched, k: nat, work: nat): Loop {
    l.(s := s, arrivals := l.arrivals[(k, l.Since()) := work])
  }

  /** An accepted registration takes a new slot. */
  function Entered(l: Loop, pid: int, c: Claim): Loop {
    l.(s := RegisterStep(Machine, l.s, pid, c), slots := l.slots + [|l.claims|], claims := l.claims + [Gap(l.clock, c)])
  }

  /** An accepted registration takes a vacated slot. */
  function Returned(l: Loop, pid: int, c: Claim, k: nat): Loop {
    l.(s := RegisterStep(Machine, l.s, pid, c), slots := l.slots + [k])
  }

  /** The last time up to `t` at which slot `k` was handed work, or 0. */
  function LastRelease(x: Execution, k: nat, t: nat): (r: nat)
    ensures r <= t && (x.arrive(k, r) > 0 || r == 0) && forall u :: r < u <= t ==> x.arrive(k, u) == 0
  {
    if t == 0 || x.arrive(k, t) > 0 then t else LastRelease(x, k, t - 1)
  }

  /** The work of slot `k` that is left. */
  function Left(l: Loop, k: nat): int {
    Pending(Exec(l), k, l.Since()) + Exec(l).arrive(k, l.Since())
  }

  /** The record with the last job of slot `k` cut down to what was done of it. */
  function Cut(l: Loop, k: nat): map<(nat, nat), nat> {
    var r := LastRelease(Exec(l), k, l.Since());
    var w := Exec(l).arrive(k, r);
    if 0 < Left(l, k) <= w then l.arrivals[(k, r) := w - Left(l, k)] else l.arrivals
  }

  /** Task `i` vacates its slot, and what is left of its job is dropped. */
  function Departed(l: Loop, s: Sched, i: nat): Loop
    requires i < |l.slots|
  {
    l.(s := s, slots := Without(l.slots, i), arrivals := Cut(l, l.slots[i]))
  }

  /** A new record that knows only the listed tasks. */
  function Anew(l: Loop): Loop {
    Loop(l.clock, l.Now(), l.s, seq(|l.s.tasks|, i => i), Gaps(l.clock, Claims(l.s.tasks)), map[], [])
  }

  ghost function Moved(l: Loop, m: Move): Loop {
    var s := l.s;
    if !Allowed(l, m) then l else
    match m
    case Enter(pid, c) => if Admit(Machine, s.ledger, c).accepted then Entered(l, pid, c) else l
    case Return(pid, c, k) => if Admit(Machine, s.ledger, c).accepted then Returned(l, pid, c, k) else l
    case Activate(i, w) => Release(l, YieldStep(s, i, l.Jiffy()), l.Slot(i), w)
    case Finish(i, w) =>
      if l.Jiffy() < s.tasks[i].nextPeriod then l.(s := YieldStep(s, i, l.Jiffy()))
      else Release(l, YieldStep(s, i, l.Jiffy()), l.Slot(i), w)
    case Expire(i, w) => Release(l, FireStep(s, i), l.Slot(i), w)
    case Leave(i) => Departed(l, DeregisterStep(Machine, s, i), i)
    case Forget => Anew(l)
    case Round => l.(s := DispatchStep(s))
    case Tick => l.(served := l.served + [if s.curr.Some? then l.Slot(s.curr.value) else -1])
  }

  ghost function Loops(l: Loop, ms: seq<Move>): Loop {
    if ms == [] then l else Moved(Loops(l, ms[..|ms| - 1]), ms[|ms| - 1])
  }

  lemma LoopsOne(l: Loop, ms: seq<Move>, m: Move)
    ensures Loops(l, ms + [m]) == Moved(Loops(l, ms), m)
  {
    assert (ms + [m])[..|ms|] == ms;
  }

  // ---------------------------------------------------------------------------
  // The invariant
  // ---------------------------------------------------------------------------

  /**
    An awake task has not passed its next release, which lies a gap after its current one; a
    sleeping task has no work left, and its timer, not yet passed, is its next release.
   */
  ghost predicate TaskOnTime(l: Loop, t: Task, k: nat) {
    var d, p := l.At(Interval(t.claim.period)), Gap(l.clock, t.claim).period;
    if t.nextPeriod == 0 then
      !Busy(l, k)
    else if t.state == Sleeping then
      && !Busy(l, k) && t.timer.Some? && l.Now() <= l.At(t.timer.value)
      && l.At(t.timer.value) + d == l.At(t.nextPeriod)
      && ReleasedBefore(l, k, p, l.At(t.timer.value))
    else
      l.Now() <= l.At(t.nextPeriod) && ReleasedBefore(l, k, p, l.At(t.nextPeriod))
  }

  ghost predicate AllOnTime(l: Loop) {
    forall i :: 0 <= i < |l.s.tasks| ==>
      TaskOnTime(l, l.s.tasks[i], l.Slot(i)) && (l.s.tasks[i].nextPeriod > 0 ==> l.Now() >= l.clock.jiffy)
  }

  /** The slot has the gap of the task, and room for its jobs. */
  ghost predicate SlotMatches(clock: Clock, t: Task, claim: Claim) {
    Regular(clock, t.claim) && claim.period == Gap(clock, t.claim).period && t.claim.computation <= claim.computation
  }

  ghost predicate SlotsMatch(clock: Clock, tasks: seq<Task>, slots: seq<nat>, claims: seq<Claim>) {
    && |slots| == |tasks| && Distinct(slots)
    && forall i :: 0 <= i < |tasks| ==> slots[i] < |claims| && SlotMatches(clock, tasks[i], claims[slots[i]])
  }

  ghost predicate Shaped(l: Loop) {
    && l.clock.slack < l.clock.jiffy
    && SlotsMatch(l.clock, l.s.tasks, l.slots, l.claims) && WithinLimit(l.claims)
  }

  /** Work came to slots given out and not in the future, service went to such slots, and vacated slots have no work. */
  ghost predicate Past(l: Loop) {
    && (forall k: nat, t: nat :: Exec(l).arrive(k, t) > 0 ==> k < |l.claims| && t <= l.Since())
    && (forall t: nat :: Exec(l).serve(t) < |l.claims|)
    && forall k: nat :: k < |l.claims| && k !in l.slots ==> !Busy(l, k)
  }

  ghost predicate Ran(l: Loop) {
    Sporadic(l.claims, Exec(l)) && RateMonotonic(l.claims, Exec(l), l.Since())
  }

  ghost predicate InTime(l: Loop) {
    Consistent(l.s) && Shaped(l) && Past(l) && Ran(l) && AllOnTime(l)
  }

  /** The interval in milliseconds is the gap and the slack. */
  lemma IntervalOfGap(clock: Clock, c: Claim)
    requires Regular(clock, c)
    ensures Times(Interval(c.period), clock.jiffy) == Gap(clock, c).period + clock.slack
    ensures Gap(clock, c).period > 0 && Gap(clock, c).computation == c.computation
  {
  }

  /** The dispatcher's order of periods is an order of gaps. */
  lemma GapMonotone(clock: Clock, c: Claim, d: Claim)
    requires Regular(clock, c) && Regular(clock, d) && c.period <= d.period
    ensures Gap(clock, c).period <= Gap(clock, d).period
  {
    IntervalMonotone(c.period, d.period);
    TimesMonotone(Interval(c.period), Interval(d.period), clock.jiffy);
  }

  // ---------------------------------------------------------------------------
  // The past of an execution
  // ---------------------------------------------------------------------------

  ghost predicate SamePast(x: Execution, y: Execution, now: nat) {
    && (forall k: nat, t: nat :: t < now ==> x.arrive(k, t) == y.arrive(k, t))
    && (forall t: nat :: t < now ==> x.serve(t) == y.serve(t))
  }

  lemma {:induction false} PendingOfPast(x: Execution, y: Execution, now: nat, k: nat, t: nat)
    requires SamePast(x, y, now) && t <= now
    ensures Pending(x, k, t) == Pending(y, k, t)
  {
    if t > 0 {
      PendingOfPast(x, y, now, k, t - 1);
    }
  }

  lemma RateOfPast(cs: seq<Claim>, x: Execution, y: Execution, now: nat)
    requires SamePast(x, y, now) && RateMonotonic(cs, x, now)
    ensures RateMonotonic(cs, y, now)
  {
    forall t: nat | t < now
      ensures ServedByRate(cs, y, t)
    {
      assert ServedByRate(cs, x, t);
      forall k: nat
        ensures Waiting(x, k, t) == Waiting(y, k, t)
      {
        PendingOfPast(x, y, now, k, t);
      }
    }
  }

  lemma {:induction false} NothingNew(cs: seq<Claim>, x: Execution, h: nat, k: nat, f: nat, t: nat)
    requires RateMonotonic(cs, x, h) && k < |cs| && f <= t <= h && Pending(x, k, f) == 0
    requires forall u: nat :: f <= u < t ==> x.arrive(k, u) == 0
    ensures Pending(x, k, t) == 0
  {
    if f < t {
      NothingNew(cs, x, h, k, f, t - 1);
      PendingNonNegative(cs, x, h, k, t);
    }
  }

  /** Under the limit, a slot that was handed nothing for a period has no work left from before. */
  lemma DoneAfterPeriod(cs: seq<Claim>, x: Execution, h: nat, k: nat, r: nat)
    requires WithinLimit(cs) && Sporadic(cs, x) && RateMonotonic(cs, x, h) && k < |cs| && r <= h
    requires forall u: nat :: u < r && x.arrive(k, u) > 0 ==> u + cs[k].period <= r
    ensures Pending(x, k, r) == 0
  {
    var p, f := cs[k].period, 0;
    if r >= p {
      LimitIsHyperbolic(cs);
      f := DeadlineMet(cs, x, h, k, r - p);
    }
    NothingNew(cs, x, h, k, f, r);
  }

  // ---------------------------------------------------------------------------
  // Moves that release a job
  // ---------------------------------------------------------------------------

  /** The job goes to slot `k`, now; nothing else about the execution changes. */
  lemma ReleaseEffect(l: Loop, s: Sched, k: nat, work: nat)
    ensures var x, y, now := Exec(l), Exec(Release(l, s, k, work)), l.Since();
      && SamePast(x, y, now) && (forall t: nat :: y.serve(t) == x.serve(t))
      && y.arrive(k, now) == work
      && (forall j: nat, t: nat :: j != k || t != now ==> y.arrive(j, t) == x.arrive(j, t))
      && (forall j: nat :: Pending(y, j, now) == Pending(x, j, now))
      && (forall j: nat :: j != k ==> (Busy(Release(l, s, k, work), j) <==> Busy(l, j)))
  {
    var x, y, now := Exec(l), Exec(Release(l, s, k, work)), l.Since();
    forall j: nat
      ensures Pending(y, j, now) == Pending(x, j, now)
    {
      PendingOfPast(x, y, now, j, now);
    }
  }

  /** Whether the new state differs from the old only at task `i`, which keeps its claim. */
  ghost predicate OnlyAt(s: Sched, z: Sched, i: nat) {
    && i < |s.tasks| == |z.tasks|
    && z.tasks[i].claim == s.tasks[i].claim
    && forall j :: 0 <= j < |s.tasks| && j != i ==> z.tasks[j] == s.tasks[j]
  }

  /** Releasing a job a gap after the previous one keeps the jobs sporadic. */
  lemma ReleaseRan(l: Loop, z: Sched, k: nat, work: nat)
    requires Past(l) && Ran(l) && k < |l.claims| && work <= l.claims[k].computation
    requires l.claims[k].period > 0 && ReleasedBefore(l, k, l.claims[k].period, l.Now())
    ensures Ran(Release(l, z, k, work))
  {
    var x, y := Exec(l), Exec(Release(l, z, k, work));
    ReleaseEffect(l, z, k, work);
    RateOfPast(l.claims, x, y, l.Since());
    forall j: nat, t: nat, u: nat | j < |l.claims| && t < u && y.arrive(j, t) > 0 && y.arrive(j, u) > 0
      ensures t + l.claims[j].period <= u
    {
      assert x.arrive(j, t) > 0;
    }
  }

  lemma ReleasePast(l: Loop, z: Sched, k: nat, work: nat)
    requires Past(l) && k < |l.claims| && k in l.slots
    ensures Past(Release(l, z, k, work))
  {
    ReleaseEffect(l, z, k, work);
  }

  /** Task `i` is awake, and its next release lies a gap after now. */
  ghost predicate Released(l: Loop, z: Sched, i: nat) {
    && OnlyAt(l.s, z, i) && z.tasks[i].state != Sleeping && l.Now() >= l.clock.jiffy
    && var p := Gap(l.clock, l.s.tasks[i].claim).period;
      l.Now() + p <= l.At(z.tasks[i].nextPeriod) && ReleasedBefore(l, l.Slot(i), p, l.Now())
  }

  lemma ReleaseOnTime(l: Loop, z: Sched, i: nat, work: nat, j: nat)
    requires Shaped(l) && AllOnTime(l) && Released(l, z, i) && j < |z.tasks|
    ensures TaskOnTime(Release(l, z, l.Slot(i), work), z.tasks[j], l.Slot(j))
  {
    var m := Release(l, z, l.Slot(i), work);
    ReleaseEffect(l, z, l.Slot(i), work);
    assert TaskOnTime(l, l.s.tasks[j], l.Slot(j)) && m.clock == l.clock && m.Now() == l.Now();
    if j != i {
      assert l.Slot(i) != l.Slot(j);
      assert Busy(m, l.Slot(j)) == Busy(l, l.Slot(j));
      assert forall t: nat :: Exec(m).arrive(l.Slot(j), t) == Exec(l).arrive(l.Slot(j), t);
    } else {
      assert SlotMatches(l.clock, l.s.tasks[i], l.claims[l.slots[i]]);
      assert z.tasks[i].nextPeriod > 0;
    }
  }

  lemma ReleaseKeeps(l: Loop, z: Sched, i: nat, work: nat)
    requires InTime(l) && Consistent(z) && Released(l, z, i) && work <= l.s.tasks[i].claim.computation
    ensures InTime(Release(l, z, l.Slot(i), work))
  {
    var k := l.Slot(i);
    assert k in l.slots && SlotMatches(l.clock, l.s.tasks[i], l.claims[k]);
    ReleaseRan(l, z, k, work);
    ReleasePast(l, z, k, work);
    assert SlotsMatch(l.clock, z.tasks, l.slots, l.claims);
    forall j: nat | j < |z.tasks|
      ensures TaskOnTime(Release(l, z, k, work), z.tasks[j], l.Slot(j))
    {
      ReleaseOnTime(l, z, i, work, j);
    }
  }

  /** The next release after an activation: an interval from the start of the jiffy. */
  lemma ActivationGap(l: Loop, c: Claim)
    requires Regular(l.clock, c) && l.clock.jiffy > 0 && l.Now() % l.clock.jiffy <= l.clock.slack
    ensures l.Now() + Gap(l.clock, c).period <= l.At(l.Jiffy() + Interval(c.period))
  {
    WholeAndRest(l.Now(), l.clock.jiffy);
    TimesAdd(l.Jiffy(), Interval(c.period), l.clock.jiffy);
  }

  lemma PositiveJiffy(l: Loop)
    requires l.Now() >= l.clock.jiffy > 0
    ensures l.Jiffy() > 0
  {
    TimesIs(1, l.clock.jiffy);
    BeforeJiffy(l.Now(), l.clock.jiffy, 1);
  }

  lemma ActivateKeeps(l: Loop, i: nat, work: nat)
    requires InTime(l) && Allowed(l, Activate(i, work))
    ensures InTime(Moved(l, Activate(i, work)))
  {
    PositiveJiffy(l);
    YieldKeeps(l.s, i, l.Jiffy());
    assert SlotMatches(l.clock, l.s.tasks[i], l.claims[l.slots[i]]);
    ActivationGap(l, l.s.tasks[i].claim);
    ReleaseKeeps(l, YieldStep(l.s, i, l.Jiffy()), i, work);
  }

  lemma ExpireKeeps(l: Loop, i: nat, work: nat)
    requires InTime(l) && Allowed(l, Expire(i, work))
    ensures InTime(Moved(l, Expire(i, work)))
  {
    FireKeeps(l.s, i);
    assert TaskOnTime(l, l.s.tasks[i], l.Slot(i)) && SlotMatches(l.clock, l.s.tasks[i], l.claims[l.slots[i]]);
    assert TaskAgrees(l.s.tasks[i], l.s.curr == Some(i));
    IntervalOfGap(l.clock, l.s.tasks[i].claim);
    ReleaseKeeps(l, FireStep(l.s, i), i, work);
  }

  // ---------------------------------------------------------------------------
  // Moves that release nothing
  // ---------------------------------------------------------------------------

  /** Putting task `i` to sleep until its next release. */
  ghost predicate PutsToSleep(s: Sched, z: Sched, i: nat) {
    && OnlyAt(s, z, i)
    && var t, u := s.tasks[i], z.tasks[i];
      u.state == Sleeping && u.timer == Some(t.nextPeriod) && u.nextPeriod == t.nextPeriod + Interval(t.claim.period)
  }

  lemma SleeperOnTime(l: Loop, t: Task, u: Task, k: nat)
    requires TaskOnTime(l, t, k) && t.state != Sleeping && 0 < t.nextPeriod && !Busy(l, k)
    requires u.claim == t.claim && u.state == Sleeping && u.timer == Some(t.nextPeriod)
    requires u.nextPeriod == t.nextPeriod + Interval(t.claim.period)
    ensures TaskOnTime(l, u, k)
  {
    TimesAdd(t.nextPeriod, Interval(t.claim.period), l.clock.jiffy);
  }

  lemma SleepOnTime(l: Loop, z: Sched, i: nat, j: nat)
    requires AllOnTime(l) && PutsToSleep(l.s, z, i) && j < |z.tasks|
    requires l.s.tasks[i].state != Sleeping && 0 < l.s.tasks[i].nextPeriod && !Busy(l, l.Slot(i))
    ensures TaskOnTime(l.(s := z), z.tasks[j], l.Slot(j))
  {
    assert TaskOnTime(l, l.s.tasks[j], l.Slot(j));
    if j == i {
      SleeperOnTime(l, l.s.tasks[i], z.tasks[i], l.Slot(i));
    }
    FewerJobsOnTime(l, l.(s := z), z.tasks[j], l.Slot(j));
  }

  lemma YieldPutsToSleep(s: Sched, i: nat, now: nat)
    requires i < |s.tasks| && 0 < now < s.tasks[i].nextPeriod
    ensures PutsToSleep(s, YieldStep(s, i, now), i)
  {
  }

  /** Going to sleep until the next release. */
  lemma SleepKeeps(l: Loop, i: nat)
    requires InTime(l) && i < |l.s.tasks| && l.clock.jiffy <= l.Now() < l.At(l.s.tasks[i].nextPeriod)
    requires l.s.tasks[i].state != Sleeping && !Busy(l, l.Slot(i))
    ensures l.Jiffy() < l.s.tasks[i].nextPeriod
    ensures InTime(l.(s := YieldStep(l.s, i, l.Jiffy())))
  {
    PositiveJiffy(l);
    BeforeJiffy(l.Now(), l.clock.jiffy, l.s.tasks[i].nextPeriod);
    YieldKeeps(l.s, i, l.Jiffy());
    YieldPutsToSleep(l.s, i, l.Jiffy());
    SleptKeeps(l, YieldStep(l.s, i, l.Jiffy()), i);
  }

  lemma SleptKeeps(l: Loop, z: Sched, i: nat)
    requires InTime(l) && Consistent(z) && PutsToSleep(l.s, z, i) && l.Now() >= l.clock.jiffy
    requires l.s.tasks[i].state != Sleeping && 0 < l.s.tasks[i].nextPeriod && !Busy(l, l.Slot(i))
    ensures InTime(l.(s := z))
  {
    assert Exec(l.(s := z)) == Exec(l) && SlotsMatch(l.clock, z.tasks, l.slots, l.claims);
    forall j: nat | j < |z.tasks|
      ensures TaskOnTime(l.(s := z), z.tasks[j], l.Slot(j))
    {
      SleepOnTime(l, z, i, j);
    }
  }

  lemma JiffyStarts(l: Loop, n: nat)
    requires l.clock.jiffy > 0 && l.Now() == l.At(n)
    ensures l.Jiffy() == n
  {
    BeforeJiffy(l.Now(), l.clock.jiffy, n);
    BeforeJiffy(l.Now(), l.clock.jiffy, n + 1);
  }

  lemma YieldReleases(l: Loop, i: nat)
    requires Shaped(l) && AllOnTime(l) && i < |l.s.tasks| && l.s.tasks[i].state != Sleeping
    requires 0 < l.s.tasks[i].nextPeriod == l.Jiffy() && l.Now() == l.At(l.s.tasks[i].nextPeriod) && l.Now() >= l.clock.jiffy
    ensures Released(l, YieldStep(l.s, i, l.Jiffy()), i)
  {
    var t := l.s.tasks[i];
    assert TaskOnTime(l, t, l.Slot(i)) && SlotMatches(l.clock, t, l.claims[l.slots[i]]);
    IntervalOfGap(l.clock, t.claim);
    TimesAdd(t.nextPeriod, Interval(t.claim.period), l.clock.jiffy);
  }

  /** A yield exactly at the next release starts the next job at once. */
  lemma YieldAtRelease(l: Loop, i: nat, work: nat)
    requires InTime(l) && Allowed(l, Finish(i, work)) && l.Now() == l.At(l.s.tasks[i].nextPeriod)
    ensures l.Jiffy() == l.s.tasks[i].nextPeriod
    ensures InTime(Release(l, YieldStep(l.s, i, l.Jiffy()), l.Slot(i), work))
  {
    assert TaskAgrees(l.s.tasks[i], l.s.curr == Some(i));
    JiffyStarts(l, l.s.tasks[i].nextPeriod);
    YieldKeeps(l.s, i, l.Jiffy());
    YieldReleases(l, i);
    ReleaseKeeps(l, YieldStep(l.s, i, l.Jiffy()), i, work);
  }

  lemma FinishKeeps(l: Loop, i: nat, work: nat)
    requires InTime(l) && Allowed(l, Finish(i, work))
    ensures l.Now() <= l.At(l.s.tasks[i].nextPeriod)
    ensures InTime(Moved(l, Finish(i, work)))
  {
    assert TaskOnTime(l, l.s.tasks[i], l.Slot(i)) && TaskAgrees(l.s.tasks[i], l.s.curr == Some(i));
    if l.Now() < l.At(l.s.tasks[i].nextPeriod) {
      SleepKeeps(l, i);
    } else {
      YieldAtRelease(l, i, work);
    }
  }

  /** A new state with the same schedule of every task leaves the loop in time. */
  lemma SameScheduleKeeps(l: Loop, z: Sched)
    requires InTime(l) && Consistent(z) && SameSleepers(l.s.tasks, z.tasks)
    ensures InTime(l.(s := z))
  {
    var m := l.(s := z);
    assert Exec(m) == Exec(l);
    forall j: nat | j < |z.tasks|
      ensures TaskOnTime(m, z.tasks[j], l.Slot(j))
    {
      assert TaskOnTime(l, l.s.tasks[j], l.Slot(j));
      assert Busy(m, l.Slot(j)) == Busy(l, l.Slot(j));
    }
  }

  lemma RoundKeeps(l: Loop)
    requires InTime(l)
    ensures InTime(l.(s := DispatchStep(l.s)))
  {
    DispatchKeeps(l.s);
    DispatchInstallsChoice(l.s);
    SameScheduleKeeps(l, DispatchStep(l.s));
  }

  // ---------------------------------------------------------------------------
  // Entering
  // ---------------------------------------------------------------------------

  lemma {:induction false} UntouchedSlot(l: Loop, t: nat)
    requires Past(l)
    ensures Pending(Exec(l), |l.claims|, t) == 0 && !Waiting(Exec(l), |l.claims|, t)
  {
    if t > 0 {
      UntouchedSlot(l, t - 1);
      assert Exec(l).serve(t - 1) < |l.claims|;
    }
    assert Exec(l).arrive(|l.claims|, t) == 0;
  }

  /** A slot without work so far does not disturb the past. */
  lemma EnterRan(l: Loop, c: Claim)
    requires Past(l) && Ran(l)
    ensures Sporadic(l.claims + [c], Exec(l)) && RateMonotonic(l.claims + [c], Exec(l), l.Since())
  {
    forall t: nat | t < l.Since()
      ensures ServedByRate(l.claims + [c], Exec(l), t)
    {
      UntouchedSlot(l, t);
      ServedWithMore(l.claims, c, Exec(l), t);
    }
    assert forall t: nat :: Exec(l).arrive(|l.claims|, t) == 0;
  }

  lemma ServedWithMore(cs: seq<Claim>, c: Claim, x: Execution, t: nat)
    requires ServedByRate(cs, x, t) && !Waiting(x, |cs|, t) && x.serve(t) < |cs|
    ensures ServedByRate(cs + [c], x, t)
  {
  }

  lemma EnterPast(l: Loop, pid: int, c: Claim)
    requires Past(l)
    ensures Past(Entered(l, pid, c))
  {
    var m := Entered(l, pid, c);
    assert Exec(m) == Exec(l) && |l.claims| in m.slots;
    forall k: nat | k < |m.claims| && k !in m.slots
      ensures !Busy(m, k)
    {
      assert k !in l.slots && Busy(m, k) == Busy(l, k);
    }
  }

  /** A task in a slot without work joins the list. */
  lemma JoinOnTime(l: Loop, m: Loop, k: nat, j: nat)
    requires AllOnTime(l) && !Busy(l, k) && |l.slots| == |l.s.tasks| && j <= |l.s.tasks|
    requires m.clock == l.clock && m.base == l.base && m.arrivals == l.arrivals && m.served == l.served
    requires m.slots == l.slots + [k] && |m.s.tasks| == |l.s.tasks| + 1 && m.s.tasks[..|l.s.tasks|] == l.s.tasks
    requires m.s.tasks[|l.s.tasks|].nextPeriod == 0
    ensures TaskOnTime(m, m.s.tasks[j], m.Slot(j)) && (m.s.tasks[j].nextPeriod > 0 ==> m.Now() >= m.clock.jiffy)
  {
    assert Exec(m) == Exec(l) && Busy(m, m.Slot(j)) == Busy(l, m.Slot(j));
    if j < |l.s.tasks| {
      assert m.s.tasks[j] == l.s.tasks[j] && TaskOnTime(l, l.s.tasks[j], l.Slot(j));
    }
  }

  lemma EnterShaped(l: Loop, pid: int, c: Claim)
    requires Shaped(l) && Regular(l.clock, c) && WithinLimit(l.claims + [Gap(l.clock, c)])
    requires Admit(Machine, l.s.ledger, c).accepted
    ensures Shaped(Entered(l, pid, c))
  {
    var m := Entered(l, pid, c);
    forall i: nat | i < |m.s.tasks|
      ensures m.slots[i] < |m.claims| && SlotMatches(m.clock, m.s.tasks[i], m.claims[m.slots[i]])
    {
      if i < |l.s.tasks| {
        assert SlotMatches(l.clock, l.s.tasks[i], l.claims[l.slots[i]]);
      }
    }
  }

  lemma EnterKeeps(l: Loop, pid: int, c: Claim)
    requires InTime(l) && Allowed(l, Enter(pid, c))
    ensures InTime(Moved(l, Enter(pid, c)))
  {
    if Admit(Machine, l.s.ledger, c).accepted {
      var m := Entered(l, pid, c);
      RegisterKeeps(Machine, l.s, pid, c);
      EnterShaped(l, pid, c);
      EnterPast(l, pid, c);
      EnterRan(l, Gap(l.clock, c));
      UntouchedSlot(l, l.Since());
      assert Exec(m) == Exec(l);
      forall j: nat | j < |m.s.tasks|
        ensures TaskOnTime(m, m.s.tasks[j], m.Slot(j)) && (m.s.tasks[j].nextPeriod > 0 ==> m.Now() >= m.clock.jiffy)
      {
        JoinOnTime(l, m, |l.claims|, j);
      }
    }
  }

  lemma ReturnShaped(l: Loop, pid: int, c: Claim, k: nat)
    requires Shaped(l) && Regular(l.clock, c) && FitsSlot(l, c, k) && Admit(Machine, l.s.ledger, c).accepted
    ensures Shaped(Returned(l, pid, c, k))
  {
    var m := Returned(l, pid, c, k);
    forall i: nat | i < |m.s.tasks|
      ensures m.slots[i] < |m.claims| && SlotMatches(m.clock, m.s.tasks[i], m.claims[m.slots[i]])
    {
      if i < |l.s.tasks| {
        assert SlotMatches(l.clock, l.s.tasks[i], l.claims[l.slots[i]]);
      }
    }
    assert forall i :: 0 <= i < |l.slots| ==> l.slots[i] != k;
  }

  lemma ReturnPast(l: Loop, pid: int, c: Claim, k: nat)
    requires Past(l)
    ensures Past(Returned(l, pid, c, k))
  {
    var m := Returned(l, pid, c, k);
    assert Exec(m) == Exec(l);
    forall h: nat | h < |m.claims| && h !in m.slots
      ensures !Busy(m, h)
    {
      assert h !in l.slots && Busy(m, h) == Busy(l, h);
    }
  }

  lemma ReturnKeeps(l: Loop, pid: int, c: Claim, k: nat)
    requires InTime(l) && Allowed(l, Return(pid, c, k))
    ensures InTime(Moved(l, Return(pid, c, k)))
  {
    if Admit(Machine, l.s.ledger, c).accepted {
      var m := Returned(l, pid, c, k);
      RegisterKeeps(Machine, l.s, pid, c);
      ReturnShaped(l, pid, c, k);
      ReturnPast(l, pid, c, k);
      assert Exec(m) == Exec(l);
      forall j: nat | j < |m.s.tasks|
        ensures TaskOnTime(m, m.s.tasks[j], m.Slot(j)) && (m.s.tasks[j].nextPeriod > 0 ==> m.Now() >= m.clock.jiffy)
      {
        JoinOnTime(l, m, k, j);
      }
    }
  }

  // ---------------------------------------------------------------------------
  // Leaving
  // ---------------------------------------------------------------------------

  /** From its last release on the work of a slot only falls, by one for each tick it is served. */
  lemma {:induction false} WorkFalls(x: Execution, k: nat, r: nat, t: nat, now: nat)
    requires r <= t <= now && forall u: nat :: r < u <= now ==> x.arrive(k, u) == 0
    ensures Pending(x, k, t) + x.arrive(k, t) >= Pending(x, k, now) + x.arrive(k, now)
    ensures t < now && x.serve(t) == k ==> Pending(x, k, t) + x.arrive(k, t) > Pending(x, k, now) + x.arrive(k, now)
    decreases now - t
  {
    if t < now {
      WorkFalls(x, k, r, t + 1, now);
    }
  }

  /** The same execution with `w` less work for slot `k` at time `r`. */
  ghost predicate LessWork(x: Execution, y: Execution, k: nat, r: nat, w: nat) {
    && (forall t: nat :: y.serve(t) == x.serve(t))
    && y.arrive(k, r) + w == x.arrive(k, r)
    && forall j: nat, t: nat :: j != k || t != r ==> y.arrive(j, t) == x.arrive(j, t)
  }

  lemma {:induction false} PendingOfLess(x: Execution, y: Execution, k: nat, r: nat, w: nat, j: nat, t: nat)
    requires LessWork(x, y, k, r, w)
    ensures Pending(y, j, t) == Pending(x, j, t) - if j == k && t > r then w else 0
  {
    if t > 0 {
      PendingOfLess(x, y, k, r, w, j, t - 1);
    }
  }

  /** Taking away what is left of the last job leaves the past as rate-monotonic as it was. */
  lemma LessWorkServed(cs: seq<Claim>, x: Execution, y: Execution, k: nat, r: nat, w: nat, now: nat, t: nat)
    requires LessWork(x, y, k, r, w) && r <= now && t < now && ServedByRate(cs, x, t)
    requires w == Pending(x, k, now) + x.arrive(k, now) && forall u: nat :: r < u <= now ==> x.arrive(k, u) == 0
    ensures ServedByRate(cs, y, t)
  {
    forall j: nat
      ensures Waiting(y, j, t) ==> Waiting(x, j, t)
      ensures j != k ==> (Waiting(y, j, t) <==> Waiting(x, j, t))
    {
      PendingOfLess(x, y, k, r, w, j, t);
    }
    if x.serve(t) == k {
      PendingOfLess(x, y, k, r, w, k, t);
      if r <= t {
        WorkFalls(x, k, r, t, now);
      }
    }
  }

  /** What a busy slot has left is left of its last job. */
  lemma LeftOfLastJob(l: Loop, k: nat)
    requires Shaped(l) && Past(l) && Ran(l) && k < |l.claims| && Busy(l, k)
    ensures 0 < Left(l, k) <= Exec(l).arrive(k, LastRelease(Exec(l), k, l.Since()))
  {
    var x, r := Exec(l), LastRelease(Exec(l), k, l.Since());
    DoneAfterPeriod(l.claims, x, l.Since(), k, if x.arrive(k, r) > 0 then r else 0);
    WorkFalls(x, k, r, r, l.Since());
  }

  /** The record after the cut: the slot has no work, and the others are as they were. */
  lemma CutEffect(l: Loop, k: nat)
    requires Shaped(l) && Past(l) && Ran(l) && k < |l.claims|
    ensures var x, y := Exec(l), Recorded(Cut(l, k), l.served);
      && (forall j: nat, t: nat :: y.arrive(j, t) <= x.arrive(j, t)) && (forall t: nat :: y.serve(t) == x.serve(t))
      && (forall j: nat :: j != k ==> (Waiting(y, j, l.Since()) <==> Waiting(x, j, l.Since())))
      && !Waiting(y, k, l.Since()) && RateMonotonic(l.claims, y, l.Since())
  {
    if Busy(l, k) {
      var x, y, r := Exec(l), Recorded(Cut(l, k), l.served), LastRelease(Exec(l), k, l.Since());
      LeftOfLastJob(l, k);
      assert LessWork(x, y, k, r, Left(l, k));
      forall t: nat | t < l.Since()
        ensures ServedByRate(l.claims, y, t)
      {
        LessWorkServed(l.claims, x, y, k, r, Left(l, k), l.Since(), t);
      }
      forall j: nat
        ensures Pending(y, j, l.Since()) == Pending(x, j, l.Since()) - if j == k && l.Since() > r then Left(l, k) else 0
      {
        PendingOfLess(x, y, k, r, Left(l, k), j, l.Since());
      }
    }
  }

  lemma StillListed(slots: seq<nat>, i: nat, k: nat)
    requires i < |slots|
    ensures k in slots && k != slots[i] ==> k in Without(slots, i)
  {
    assert slots == slots[..i] + [slots[i]] + slots[i + 1..];
  }

  lemma SporadicOfLess(cs: seq<Claim>, x: Execution, y: Execution)
    requires Sporadic(cs, x) && forall j: nat, t: nat :: y.arrive(j, t) <= x.arrive(j, t)
    ensures Sporadic(cs, y)
  {
    forall i: nat, t: nat, u: nat | i < |cs| && t < u && y.arrive(i, t) > 0 && y.arrive(i, u) > 0
      ensures t + cs[i].period <= u
    {
      assert x.arrive(i, t) > 0 && x.arrive(i, u) > 0;
    }
  }

  lemma LeaveRan(l: Loop, z: Sched, i: nat)
    requires Shaped(l) && Past(l) && Ran(l) && i < |l.slots|
    ensures Ran(Departed(l, z, i))
  {
    CutEffect(l, l.slots[i]);
    SporadicOfLess(l.claims, Exec(l), Recorded(Cut(l, l.slots[i]), l.served));
  }

  lemma LeavePast(l: Loop, z: Sched, i: nat)
    requires Shaped(l) && Past(l) && Ran(l) && i < |l.slots|
    ensures Past(Departed(l, z, i))
  {
    var m, x := Departed(l, z, i), Exec(l);
    CutEffect(l, l.slots[i]);
    forall k: nat, t: nat | Exec(m).arrive(k, t) > 0
      ensures k < |l.claims| && t <= l.Since()
    {
      assert x.arrive(k, t) > 0;
    }
    forall k: nat | k < |l.claims| && k !in m.slots
      ensures !Busy(m, k)
    {
      StillListed(l.slots, i, k);
    }
  }

  /** A task whose slot keeps its work, and has no more jobs recorded, stays on time. */
  lemma FewerJobsOnTime(l: Loop, m: Loop, t: Task, k: nat)
    requires TaskOnTime(l, t, k) && m.clock == l.clock && m.base == l.base && m.served == l.served
    requires Busy(m, k) == Busy(l, k) && forall u: nat :: Exec(m).arrive(k, u) <= Exec(l).arrive(k, u)
    ensures TaskOnTime(m, t, k)
  {
  }

  lemma LeaveShaped(l: Loop, z: Sched, i: nat)
    requires Shaped(l) && i < |l.s.tasks| && z.tasks == Without(l.s.tasks, i)
    ensures Shaped(Departed(l, z, i))
  {
    var slots := Without(l.slots, i);
    DistinctWithout(l.slots, i);
    forall j: nat | j < |z.tasks|
      ensures slots[j] < |l.claims| && SlotMatches(l.clock, z.tasks[j], l.claims[slots[j]])
    {
      var h := if j < i then j else j + 1;
      assert SlotMatches(l.clock, l.s.tasks[h], l.claims[l.slots[h]]);
    }
  }

  lemma LeaveOnTime(l: Loop, z: Sched, i: nat, j: nat)
    requires Shaped(l) && Past(l) && Ran(l) && AllOnTime(l)
    requires i < |l.s.tasks| && z.tasks == Without(l.s.tasks, i) && j < |z.tasks|
    ensures var m := Departed(l, z, i);
      TaskOnTime(m, z.tasks[j], m.Slot(j)) && (z.tasks[j].nextPeriod > 0 ==> m.Now() >= m.clock.jiffy)
  {
    var h := if j < i then j else j + 1;
    assert l.slots[h] != l.slots[i];
    OthersKeepWork(l, z, i, l.slots[h]);
    FewerJobsOnTime(l, Departed(l, z, i), l.s.tasks[h], l.Slot(h));
  }

  lemma OthersKeepWork(l: Loop, z: Sched, i: nat, k: nat)
    requires Shaped(l) && Past(l) && Ran(l) && i < |l.slots| && k != l.slots[i]
    ensures Busy(Departed(l, z, i), k) == Busy(l, k)
    ensures forall t: nat :: Exec(Departed(l, z, i)).arrive(k, t) <= Exec(l).arrive(k, t)
  {
    CutEffect(l, l.slots[i]);
  }

  lemma LeaveKeeps(l: Loop, i: nat)
    requires InTime(l) && Allowed(l, Leave(i))
    ensures InTime(Moved(l, Leave(i)))
  {
    var z := DeregisterStep(Machine, l.s, i);
    var m := Departed(l, z, i);
    DeregisterKeeps(Machine, l.s, i);
    LeaveShaped(l, z, i);
    LeavePast(l, z, i);
    LeaveRan(l, z, i);
    forall j: nat | j < |z.tasks|
      ensures TaskOnTime(m, z.tasks[j], m.Slot(j)) && (z.tasks[j].nextPeriod > 0 ==> m.Now() >= m.clock.jiffy)
    {
      LeaveOnTime(l, z, i, j);
    }
  }

  // ---------------------------------------------------------------------------
  // Starting the record anew
  // ---------------------------------------------------------------------------

  lemma {:induction false} SumAtMost(us: seq<real>, vs: seq<real>)
    requires |us| == |vs| && forall i :: 0 <= i < |us| ==> us[i] <= vs[i]
    ensures Sum(us) <= Sum(vs)
  {
    if us != [] {
      SumAtMost(us[..|us| - 1], vs[..|us| - 1]);
    }
  }

  lemma {:induction false} SumUpdate(us: seq<real>, i: nat, u: real)
    requires i < |us|
    ensures Sum(us[i := u]) == Sum(us) - us[i] + u
  {
    var n := |us| - 1;
    if i < n {
      SumUpdate(us[..n], i, u);
      assert us[i := u][..n] == us[..n][i := u];
    } else {
      assert us[i := u][..n] == us[..n];
    }
  }

  /** The shares of the first `n` of the given slots, each in its place, and nothing elsewhere. */
  function Placed(us: seq<real>, slots: seq<nat>, n: nat, size: nat): (vs: seq<real>)
    requires n <= |slots| == |us| && forall i :: 0 <= i < |slots| ==> slots[i] < size
    ensures |vs| == size && forall k: nat :: k < size && k !in slots[..n] ==> vs[k] == 0.0
  {
    if n == 0 then Zeros(size) else Placed(us, slots, n - 1, size)[slots[n - 1] := us[n - 1]]
  }

  function Zeros(size: nat): (us: seq<real>)
    ensures |us| == size && forall i :: 0 <= i < size ==> us[i] == 0.0
  {
    if size == 0 then [] else Zeros(size - 1) + [0.0]
  }

  lemma {:induction false} ZeroSum(size: nat)
    ensures Sum(Zeros(size)) == 0.0
  {
    if size > 0 {
      ZeroSum(size - 1);
      assert Zeros(size)[..size - 1] == Zeros(size - 1);
    }
  }

  lemma SumNext(us: seq<real>, n: nat)
    requires 0 < n <= |us|
    ensures Sum(us[..n]) == Sum(us[..n - 1]) + us[n - 1]
  {
    assert us[..n][..n - 1] == us[..n - 1];
  }

  lemma PlacedNext(us: seq<real>, slots: seq<nat>, n: nat, size: nat)
    requires 0 < n <= |slots| == |us| && Distinct(slots) && forall i :: 0 <= i < |slots| ==> slots[i] < size
    ensures Sum(Placed(us, slots, n, size)) == Sum(Placed(us, slots, n - 1, size)) + us[n - 1]
  {
    var vs, k := Placed(us, slots, n - 1, size), slots[n - 1];
    assert k !in slots[..n - 1];
    SumUpdate(vs, k, us[n - 1]);
  }

  lemma {:induction false} PlacedSum(us: seq<real>, slots: seq<nat>, n: nat, size: nat)
    requires n <= |slots| == |us| && Distinct(slots) && forall i :: 0 <= i < |slots| ==> slots[i] < size
    ensures Sum(Placed(us, slots, n, size)) == Sum(us[..n])
  {
    if n == 0 {
      ZeroSum(size);
      assert us[..0] == [];
    } else {
      PlacedSum(us, slots, n - 1, size);
      PlacedNext(us, slots, n, size);
      SumNext(us, n);
    }
  }

  lemma {:induction false} PlacedAtMost(us: seq<real>, slots: seq<nat>, n: nat, vs: seq<real>)
    requires n <= |slots| == |us| && NonNegative(vs)
    requires forall i :: 0 <= i < |slots| ==> slots[i] < |vs| && us[i] <= vs[slots[i]]
    ensures forall k :: 0 <= k < |vs| ==> Placed(us, slots, n, |vs|)[k] <= vs[k]
  {
    if n > 0 {
      PlacedAtMost(us, slots, n - 1, vs);
    }
  }

  lemma ShareAtMost(c: Claim, d: Claim)
    requires 0 < d.period <= c.period && c.computation <= d.computation
    ensures Share(c) <= Share(d)
  {
    ShareTimesPeriod(c);
    ShareTimesPeriod(d);
    Fractions(Share(c), c.period as real, Share(d), d.period as real);
  }

  lemma Fractions(u: real, p: real, v: real, q: real)
    requires 0.0 < q <= p && v >= 0.0 && u * p <= v * q
    ensures u <= v
  {
    MulMonotone(v, v, q, p);
    Divided(u, v, p);
  }

  lemma Divided(u: real, v: real, p: real)
    requires p > 0.0 && u * p <= v * p
    ensures u <= v
  {
  }

  /** The listed tasks take no more than all slots together. */
  lemma ListedWithinLimit(l: Loop)
    requires Shaped(l)
    ensures WithinLimit(Gaps(l.clock, Claims(l.s.tasks)))
  {
    var gs := Gaps(l.clock, Claims(l.s.tasks));
    forall i: nat | i < |gs|
      ensures gs[i].period > 0 && Share(gs[i]) <= Share(l.claims[l.slots[i]])
    {
      assert SlotMatches(l.clock, l.s.tasks[i], l.claims[l.slots[i]]);
      ShareAtMost(gs[i], l.claims[l.slots[i]]);
    }
    var us, vs := Shares(gs), Shares(l.claims);
    PlacedSum(us, l.slots, |us|, |vs|);
    PlacedAtMost(us, l.slots, |us|, vs);
    SumAtMost(Placed(us, l.slots, |us|, |vs|), vs);
    assert us[..|us|] == us;
  }

  lemma AnewShaped(l: Loop)
    requires Shaped(l)
    ensures Shaped(Anew(l))
  {
    ListedWithinLimit(l);
    forall i: nat | i < |l.s.tasks|
      ensures SlotMatches(l.clock, l.s.tasks[i], Gaps(l.clock, Claims(l.s.tasks))[i])
    {
      assert SlotMatches(l.clock, l.s.tasks[i], l.claims[l.slots[i]]);
    }
  }

  /** A record without entries. */
  lemma EmptyRecord(l: Loop)
    requires l.arrivals == map[] && l.served == [] && forall k: nat :: k < |l.claims| ==> k in l.slots
    ensures Past(l) && Ran(l) && forall k: nat :: !Busy(l, k)
  {
  }

  lemma AnewOnTime(l: Loop, i: nat)
    requires AllOnTime(l) && i < |l.s.tasks| && !Busy(Anew(l), i)
    ensures TaskOnTime(Anew(l), l.s.tasks[i], i)
  {
    assert TaskOnTime(l, l.s.tasks[i], l.Slot(i));
  }

  lemma ForgetKeeps(l: Loop)
    requires InTime(l) && Allowed(l, Forget)
    ensures InTime(Moved(l, Forget))
  {
    var m := Anew(l);
    AnewShaped(l);
    forall k: nat | k < |m.claims|
      ensures m.slots[k] == k && k in m.slots
    {
      assert m.slots[k] == k;
    }
    EmptyRecord(m);
    forall i: nat | i < |l.s.tasks|
      ensures TaskOnTime(m, l.s.tasks[i], m.Slot(i))
    {
      AnewOnTime(l, i);
    }
  }

  // ---------------------------------------------------------------------------
  // The tick
  // ---------------------------------------------------------------------------

  /** A task with work at its next release would have missed its deadline, which the execution so far rules out. */
  lemma BusyBeforeNextPeriod(l: Loop, i: nat)
    requires InTime(l) && i < |l.s.tasks| && l.s.tasks[i].state != Sleeping && Busy(l, l.Slot(i))
    ensures l.Now() < l.At(l.s.tasks[i].nextPeriod)
  {
    var t, k := l.s.tasks[i], l.Slot(i);
    assert TaskOnTime(l, t, k) && TaskAgrees(t, l.s.curr == Some(i));
    assert SlotMatches(l.clock, t, l.claims[l.slots[i]]);
    if l.Now() == l.At(t.nextPeriod) {
      DoneAtRelease(l, k);
      assert false;
    }
  }

  lemma DoneAtRelease(l: Loop, k: nat)
    requires Shaped(l) && Ran(l) && k < |l.claims| && ReleasedBefore(l, k, l.claims[k].period, l.Now())
    ensures !Busy(l, k)
  {
    assert l.claims[k].period > 0;
    DoneAfterPeriod(l.claims, Exec(l), l.Since(), k, l.Since());
  }

  lemma TickEffect(l: Loop)
    requires Past(l) && Allowed(l, Tick)
    ensures var x, y, now := Exec(l), Exec(Moved(l, Tick)), l.Since();
      && (forall k: nat, t: nat :: y.arrive(k, t) == x.arrive(k, t))
      && SamePast(x, y, now)
      && y.serve(now) == (if l.s.curr.Some? then l.Slot(l.s.curr.value) else -1)
      && (forall k: nat :: Waiting(y, k, now) == Waiting(x, k, now))
      && forall k: nat :: k != y.serve(now) && !Busy(l, k) ==> !Busy(Moved(l, Tick), k)
  {
    var x, y, now := Exec(l), Exec(Moved(l, Tick)), l.Since();
    forall k: nat
      ensures Waiting(y, k, now) == Waiting(x, k, now)
      ensures k != y.serve(now) && !Busy(l, k) ==> !Busy(Moved(l, Tick), k)
    {
      PendingOfPast(x, y, now, k, now);
      assert x.arrive(k, now + 1) == 0;
    }
  }

  /** Exactly the slots of eligible tasks wait. */
  lemma BusyIsEligible(l: Loop, i: nat)
    requires InTime(l) && Allowed(l, Tick) && i < |l.s.tasks|
    ensures Busy(l, l.Slot(i)) <==> Eligible(l.s.tasks[i])
  {
    assert TaskOnTime(l, l.s.tasks[i], l.Slot(i)) && SlotMatches(l.clock, l.s.tasks[i], l.claims[l.slots[i]]);
    assert TaskAgrees(l.s.tasks[i], l.s.curr == Some(i)) && Settled(l, i);
  }

  /** The current task has a gap no longer than that of any slot with work. */
  lemma CurrentHasSmallestGap(l: Loop, k: nat)
    requires InTime(l) && Allowed(l, Tick) && k < |l.claims| && Busy(l, k)
    ensures l.s.curr.Some? && l.claims[l.Slot(l.s.curr.value)].period <= l.claims[k].period
  {
    var i :| 0 <= i < |l.slots| && l.slots[i] == k;
    BusyIsEligible(l, i);
    var c := l.s.curr.value;
    assert SlotMatches(l.clock, l.s.tasks[i], l.claims[k]) && SlotMatches(l.clock, l.s.tasks[c], l.claims[l.slots[c]]);
    GapMonotone(l.clock, l.s.tasks[c].claim, l.s.tasks[i].claim);
  }

  /** The tick goes to a slot of smallest gap among those with work. */
  lemma TickIsRateMonotonic(l: Loop)
    requires InTime(l) && Allowed(l, Tick)
    ensures ServedByRate(l.claims, Exec(Moved(l, Tick)), l.Since())
  {
    TickEffect(l);
    forall k: nat | k < |l.claims| && Busy(l, k)
      ensures l.s.curr.Some? && l.claims[l.Slot(l.s.curr.value)].period <= l.claims[k].period
    {
      CurrentHasSmallestGap(l, k);
    }
    if l.s.curr.Some? {
      BusyIsEligible(l, l.s.curr.value);
    }
  }

  lemma TickPast(l: Loop)
    requires InTime(l) && Allowed(l, Tick)
    ensures Past(Moved(l, Tick))
  {
    var m := Moved(l, Tick);
    TickEffect(l);
    assert l.s.curr.Some? ==> l.Slot(l.s.curr.value) in l.slots;
    assert forall t: nat :: Exec(m).serve(t) == if t == l.Since() then Exec(m).serve(l.Since()) else Exec(l).serve(t);
  }

  lemma TickRan(l: Loop)
    requires InTime(l) && Allowed(l, Tick)
    ensures Ran(Moved(l, Tick))
  {
    TickIsRateMonotonic(l);
    TickEffect(l);
    RateOfPast(l.claims, Exec(l), Exec(Moved(l, Tick)), l.Since());
    assert Sporadic(l.claims, Exec(Moved(l, Tick)));
  }

  lemma TickOnTime(l: Loop, j: nat)
    requires InTime(l) && Allowed(l, Tick) && j < |l.s.tasks|
    ensures TaskOnTime(Moved(l, Tick), l.s.tasks[j], l.Slot(j))
  {
    TickEffect(l);
    assert TaskOnTime(l, l.s.tasks[j], l.Slot(j)) && TaskAgrees(l.s.tasks[j], l.s.curr == Some(j)) && Settled(l, j);
    if l.s.tasks[j].state != Sleeping {
      BusyBeforeNextPeriod(l, j);
    }
  }

  lemma TickKeeps(l: Loop)
    requires InTime(l) && Allowed(l, Tick)
    ensures InTime(Moved(l, Tick))
  {
    TickPast(l);
    TickRan(l);
    forall j: nat | j < |l.s.tasks|
      ensures TaskOnTime(Moved(l, Tick), l.s.tasks[j], l.Slot(j))
    {
      TickOnTime(l, j);
    }
  }

  // ---------------------------------------------------------------------------
  // Whole runs
  // ---------------------------------------------------------------------------

  lemma MovedKeeps(l: Loop, m: Move)
    requires InTime(l)
    ensures InTime(Moved(l, m))
  {
    if Allowed(l, m) {
      match m
      case Enter(pid, c) => EnterKeeps(l, pid, c);
      case Return(pid, c, k) => ReturnKeeps(l, pid, c, k);
      case Activate(i, w) => ActivateKeeps(l, i, w);
      case Finish(i, w) => FinishKeeps(l, i, w);
      case Expire(i, w) => ExpireKeeps(l, i, w);
      case Leave(i) => LeaveKeeps(l, i);
      case Forget => ForgetKeeps(l);
      case Round => RoundKeeps(l);
      case Tick => TickKeeps(l);
    }
  }

  lemma {:induction false} LoopsKeep(l: Loop, ms: seq<Move>)
    requires InTime(l)
    ensures InTime(Loops(l, ms))
  {
    if ms != [] {
      LoopsKeep(l, ms[..|ms| - 1]);
      MovedKeeps(Loops(l, ms[..|ms| - 1]), ms[|ms| - 1]);
    }
  }

  /** The loop at time zero, with every listed task in the slot of its position. */
  function Start(clock: Clock, s: Sched): Loop {
    Loop(clock, 0, s, seq(|s.tasks|, i => i), Gaps(clock, Claims(s.tasks)), map[], [])
  }

  /** A list of registered tasks, none of them activated yet, within the limit in the time that is left for their jobs. */
  ghost predicate Startable(clock: Clock, s: Sched) {
    && clock.slack < clock.jiffy && Consistent(s) && WithinLimit(Gaps(clock, Claims(s.tasks)))
    && forall i :: 0 <= i < |s.tasks| ==> s.tasks[i].nextPeriod == 0 && Regular(clock, s.tasks[i].claim)
  }

  lemma StartInTime(clock: Clock, s: Sched)
    requires Startable(clock, s)
    ensures InTime(Start(clock, s))
  {
    var l := Start(clock, s);
    forall k: nat | k < |l.slots|
      ensures l.slots[k] == k && k in l.slots && SlotMatches(clock, s.tasks[k], l.claims[k])
    {
      assert l.slots[k] == k;
    }
  }

  /** Every state of every closed-loop run is in time. */
  lemma LoopInTime(clock: Clock, s: Sched, ms: seq<Move>)
    requires Startable(clock, s)
    ensures InTime(Loops(Start(clock, s), ms))
  {
    StartInTime(clock, s);
    LoopsKeep(Start(clock, s), ms);
  }

  /** No task ever yields after its next release is due. */
  lemma NoYieldIsLate(clock: Clock, s: Sched, ms: seq<Move>, i: nat, work: nat)
    requires Startable(clock, s) && Allowed(Loops(Start(clock, s), ms), Finish(i, work))
    ensures var l := Loops(Start(clock, s), ms);
      l.Now() <= l.At(l.s.tasks[i].nextPeriod)
  {
    LoopInTime(clock, s, ms);
    FinishKeeps(Loops(Start(clock, s), ms), i, work);
  }

  /** Every recorded job is done within the gap of its slot, also that of a task that has left. */
  lemma JobsMeetDeadlines(clock: Clock, s: Sched, ms: seq<Move>, k: nat, r: nat) returns (f: nat)
    requires Startable(clock, s)
    requires var l := Loops(Start(clock, s), ms);
      k < |l.claims| && r + l.claims[k].period <= l.Since()
    ensures var l := Loops(Start(clock, s), ms);
      r < f <= r + l.claims[k].period && Pending(Exec(l), k, f) == 0
  {
    var l := Loops(Start(clock, s), ms);
    LoopInTime(clock, s, ms);
    LimitIsHyperbolic(l.claims);
    f := DeadlineMet(l.claims, Exec(l), l.Since(), k, r);
  }

  // ---------------------------------------------------------------------------
  // Which lists start
  // ---------------------------------------------------------------------------

  /** Periods are whole, representable numbers of jiffies of ten milliseconds. */
  predicate WholeJiffies(c: Claim) {
    0 < c.period < INT_MAX && c.period % 10 == 0 && c.period * USER_HZ < UINT
  }

  /** HZ is USER_HZ, and activations fall on the start of a jiffy. */
  const ALIGNED: Clock := Clock(10, 0)

  /** HZ is USER_HZ, and activations fall anywhere. */
  const ANYTIME: Clock := Clock(10, 9)

  lemma WholeGap(c: Claim)
    requires WholeJiffies(c)
    ensures Regular(ALIGNED, c) && Gap(ALIGNED, c) == c
  {
    TimesIs(Interval(c.period), 10);
  }

  /** Registered tasks, none of them activated yet, whose periods are whole jiffies. */
  ghost predicate Fresh(s: Sched) {
    forall i :: 0 <= i < |s.tasks| ==> s.tasks[i].nextPeriod == 0 && WholeJiffies(s.tasks[i].claim)
  }

  /** Where intervals are exact and activations aligned, the module's own test is all that is needed. */
  lemma AdmittedIsStartable(threads: map<int, Thread>, es: seq<Event>, b: nat)
    requires Bounded(threads, es, b) && Fresh(Run(Machine, threads, es))
    ensures Startable(ALIGNED, Run(Machine, threads, es))
  {
    var s := Run(Machine, threads, es);
    AlwaysConsistent(Machine, threads, es);
    ReachableLoad(threads, es, b);
    forall i | 0 <= i < |s.tasks|
      ensures Regular(ALIGNED, s.tasks[i].claim) && Gap(ALIGNED, s.tasks[i].claim) == s.tasks[i].claim
    {
      WholeGap(s.tasks[i].claim);
    }
    assert Gaps(ALIGNED, Claims(s.tasks)) == Claims(s.tasks);
  }

  /** Every state of every closed-loop run of an admitted list is in time. */
  lemma AdmittedLoopInTime(threads: map<int, Thread>, es: seq<Event>, b: nat, ms: seq<Move>)
    requires Bounded(threads, es, b) && Fresh(Run(Machine, threads, es))
    ensures InTime(Loops(Start(ALIGNED, Run(Machine, threads, es)), ms))
  {
    AdmittedIsStartable(threads, es, b);
    LoopInTime(ALIGNED, Run(Machine, threads, es), ms);
  }

  /** The claims with 18 milliseconds taken off each period: 9 for the rounding, 9 for the activation. */
  function Margins(cs: seq<Claim>): (ds: seq<Claim>)
    requires forall i :: 0 <= i < |cs| ==> cs[i].period > 18
    ensures |ds| == |cs| && forall i :: 0 <= i < |cs| ==> ds[i] == Claim(cs[i].period - 18, cs[i].computation)
  {
    seq(|cs|, i requires 0 <= i < |cs| => Claim(cs[i].period - 18, cs[i].computation))
  }

  lemma GapAboveMargin(c: Claim)
    requires 18 < c.period < INT_MAX && c.period * USER_HZ < UINT
    ensures Regular(ANYTIME, c) && Gap(ANYTIME, c).period >= c.period - 18
  {
    TimesIs(Interval(c.period), 10);
  }

  /**
    For periods and activations of any kind, it is enough that the claims pass the test with
    18 milliseconds less of period each.
   */
  lemma MarginIsStartable(s: Sched)
    requires Consistent(s) && forall i :: 0 <= i < |s.tasks| ==>
      var t := s.tasks[i]; t.nextPeriod == 0 && 18 < t.claim.period < INT_MAX && t.claim.period * USER_HZ < UINT
    requires WithinLimit(Margins(Claims(s.tasks)))
    ensures Startable(ANYTIME, s)
  {
    var cs := Claims(s.tasks);
    var gs, ds := Gaps(ANYTIME, cs), Margins(cs);
    forall i: nat | i < |cs|
      ensures Regular(ANYTIME, cs[i]) && gs[i].period > 0 && Share(gs[i]) <= Share(ds[i])
    {
      GapAboveMargin(cs[i]);
      ShareAtMost(gs[i], ds[i]);
    }
    SumAtMost(Shares(gs), Shares(ds));
  }
}
