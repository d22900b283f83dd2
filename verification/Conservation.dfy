/**
  Every fault and every tick of processor time is accounted for: what was recorded, what
  still stands in the counters of listed processes, and what left with processes that were
  unregistered or died add up to what came under observation and what was counted again.
 */
module Conservation {
  import opened Load
  import opened Sampler

  function Pids(head: seq<Entry>): (ps: seq<int>)
    ensures |ps| == |head| && forall i :: 0 <= i < |head| ==> ps[i] == head[i].pid
  {
    seq(|head|, i requires 0 <= i < |head| => head[i].pid)
  }

  /** The column summed over the listed processes, each process once. */
  function Residual(col: Column, ps: seq<int>, procs: map<int, Counters>): nat {
    if ps == [] then 0 else
      var front, p := ps[..|ps| - 1], ps[|ps| - 1];
      Residual(col, front, procs) + if p in front then 0 else Held(col, procs, p)
  }

  // ---------------------------------------------------------------------------
  // One sample
  // ---------------------------------------------------------------------------

  lemma {:induction false} CollectEffect(head: seq<Entry>, procs: map<int, Counters>)
    ensures After(head, procs).Keys == procs.Keys
    ensures forall p :: p in procs ==> After(head, procs)[p] == if p in Pids(head) then NONE else procs[p]
    ensures Pids(Collect(head, procs)) == Pids(head)
  {
    if head != [] {
      var n := |head| - 1;
      CollectEffect(head[..n], procs);
      assert Pids(head) == Pids(head[..n]) + [head[n].pid];
    }
  }

  /** A sample is the residue of the listed processes plus whatever stale values dead entries hold. */
  lemma {:induction false} CollectSums(col: Column, head: seq<Entry>, procs: map<int, Counters>)
    ensures ColumnSum(col, Collect(head, procs)) == Residual(col, Pids(head), procs) + Stale(col, head, procs)
  {
    if head != [] {
      var n := |head| - 1;
      CollectSums(col, head[..n], procs);
      CollectEffect(head[..n], procs);
      assert Pids(head)[..n] == Pids(head[..n]);
      var done := Collect(head, procs);
      assert done[..n] == Collect(head[..n], procs);
    }
  }

  lemma {:induction false} ResidualZero(col: Column, ps: seq<int>, procs: map<int, Counters>)
    requires forall p :: p in ps && p in procs ==> procs[p] == NONE
    ensures Residual(col, ps, procs) == 0
  {
    if ps != [] {
      ResidualZero(col, ps[..|ps| - 1], procs);
    }
  }

  /**
    A sample moves exactly the residue into the record if and only if no dead entry holds a
    stale value.
   */
  lemma SampleConservesIff(col: Column, head: seq<Entry>, procs: map<int, Counters>)
    ensures var done := Collect(head, procs);
      && Residual(col, Pids(done), After(head, procs)) == 0
      && (ColumnSum(col, done) == Residual(col, Pids(head), procs) <==> Stale(col, head, procs) == 0)
  {
    CollectSums(col, head, procs);
    CollectEffect(head, procs);
    ResidualZero(col, Pids(Collect(head, procs)), After(head, procs));
  }

  /**
    The four words that a work item writes: when it runs, and for minor faults, major faults
    and processor time in this order, the residue of the listed processes and what dead
    entries hold.
   */
  lemma SampleWords(p: Prof, now: nat)
    requires TakesSample(p, Work(now))
    ensures var z, o := Step(p, Work(now)), p.offset;
      && o + 4 <= |z.vm| && z.vm[o] == now
      && z.vm[o + 1] == Residual(Minor, Pids(p.head), p.procs) + Stale(Minor, p.head, p.procs)
      && z.vm[o + 2] == Residual(Major, Pids(p.head), p.procs) + Stale(Major, p.head, p.procs)
      && z.vm[o + 3] == Residual(Cpu, Pids(p.head), p.procs) + Stale(Cpu, p.head, p.procs)
  {
    CollectSums(Minor, p.head, p.procs);
    CollectSums(Major, p.head, p.procs);
    CollectSums(Cpu, p.head, p.procs);
    RowWords(p.vm, p.offset, SampleOf(Collect(p.head, p.procs), now));
  }

  lemma RowWords(vm: seq<int>, o: nat, r: Row)
    requires Fits(o, |vm|)
    ensures var v := WriteRow(vm, o, r);
      |v| == |vm| && o + 4 <= |v| && v[o] == r.time && v[o + 1] == r.minor && v[o + 2] == r.major && v[o + 3] == r.cpu
  {
  }

  ghost predicate AllAlive(head: seq<Entry>, procs: map<int, Counters>) {
    forall i :: 0 <= i < |head| ==> head[i].pid in procs
  }

  lemma {:induction false} NoStaleIfAlive(col: Column, head: seq<Entry>, procs: map<int, Counters>)
    requires AllAlive(head, procs)
    ensures Stale(col, head, procs) == 0
  {
    if head != [] {
      NoStaleIfAlive(col, head[..|head| - 1], procs);
    }
  }

  // ---------------------------------------------------------------------------
  // The other steps
  // ---------------------------------------------------------------------------

  lemma {:induction false} ResidualGain(col: Column, ps: seq<int>, procs: map<int, Counters>, pid: int, gain: Counters)
    requires pid in procs
    ensures Residual(col, ps, procs[pid := Plus(procs[pid], gain)])
      == Residual(col, ps, procs) + if pid in ps then Get(col, gain) else 0
  {
    if ps != [] {
      var n := |ps| - 1;
      ResidualGain(col, ps[..n], procs, pid, gain);
      assert ps == ps[..n] + [ps[n]];
    }
  }

  /** A process that comes or goes changes the residue only if it is listed. */
  lemma {:induction false} ResidualForget(col: Column, ps: seq<int>, procs: map<int, Counters>, pid: int)
    ensures Residual(col, ps, procs) == Residual(col, ps, procs - {pid}) + if pid in ps then Held(col, procs, pid) else 0
  {
    if ps != [] {
      var n := |ps| - 1;
      ResidualForget(col, ps[..n], procs, pid);
      assert ps == ps[..n] + [ps[n]];
    }
  }

  /** Taking out an entry of a process changes the residue only if no other entry names it. */
  lemma {:induction false} ResidualWithout(col: Column, ps: seq<int>, procs: map<int, Counters>, i: nat)
    requires i < |ps|
    ensures var rest := Without(ps, i);
      Residual(col, ps, procs) == Residual(col, rest, procs) + if ps[i] in rest then 0 else Held(col, procs, ps[i])
  {
    var n := |ps| - 1;
    if i == n {
      assert Without(ps, i) == ps[..n];
    } else {
      assert ps == ps[..n] + [ps[n]];
      ResidualWithout(col, ps[..n], procs, i);
      ResidualStep(col, ps[..n], procs, i, ps[n]);
      assert Without(ps, i) == Without(ps[..n], i) + [ps[n]];
    }
  }

  lemma ResidualStep(col: Column, ps: seq<int>, procs: map<int, Counters>, i: nat, last: int)
    requires i < |ps|
    requires var rest := Without(ps, i);
      Residual(col, ps, procs) == Residual(col, rest, procs) + if ps[i] in rest then 0 else Held(col, procs, ps[i])
    ensures var rest := Without(ps, i) + [last];
      Residual(col, ps + [last], procs) == Residual(col, rest, procs) + if ps[i] in rest then 0 else Held(col, procs, ps[i])
  {
    ResidualSnoc(col, ps, procs, last);
    ResidualSnoc(col, Without(ps, i), procs, last);
    if last != ps[i] {
      StillIn(ps, i, last);
    }
  }

  lemma ResidualSnoc(col: Column, ps: seq<int>, procs: map<int, Counters>, p: int)
    ensures Residual(col, ps + [p], procs) == Residual(col, ps, procs) + if p in ps then 0 else Held(col, procs, p)
    ensures forall q :: q in ps + [p] <==> q in ps || q == p
  {
  }

  lemma StillIn(ps: seq<int>, i: nat, p: int)
    requires i < |ps| && p != ps[i]
    ensures p in Without(ps, i) <==> p in ps
  {
  }

  lemma ListedIsPid(head: seq<Entry>, pid: int)
    ensures Listed(head, pid) <==> pid in Pids(head)
  {
  }

  // ---------------------------------------------------------------------------
  // Whole runs
  // ---------------------------------------------------------------------------

  /**
    What was recorded, what stands in the counters of listed processes, what was carried off
    and what was lost add up to what came under observation and what was counted again.
   */
  ghost predicate Balanced(col: Column, h: Traced) {
    var b := h.books;
    b.recorded + Residual(col, Pids(h.p.head), h.p.procs) + b.carried + b.lost == b.observed + b.recounted
  }

  lemma WorkBalances(col: Column, h: Traced, now: nat)
    requires Balanced(col, h) && Enabled(h.p, Work(now))
    ensures Balanced(col, TraceStep(col, h, Work(now)))
  {
    CollectSums(col, h.p.head, h.p.procs);
    SampleConservesIff(col, h.p.head, h.p.procs);
  }

  lemma RegisterBalances(col: Column, h: Traced, pid: int, junk: Counters)
    requires Balanced(col, h)
    ensures Balanced(col, TraceStep(col, h, Register(pid, junk)))
  {
    ListedIsPid(h.p.head, pid);
    var head := h.p.head + [Entry(pid, junk)];
    assert Pids(head)[..|h.p.head|] == Pids(h.p.head);
  }

  lemma UnregisterBooks(col: Column, h: Traced, pid: int)
    requires Listed(h.p.head, pid) && !h.p.overrun
    ensures Find(h.p.head, pid) >= 0
    ensures var i, z := Find(h.p.head, pid), TraceStep(col, h, Unregister(pid));
      && z.p.head == Without(h.p.head, i) && z.p.procs == h.p.procs
      && z.books == h.books.(carried := h.books.carried + if Listed(z.p.head, pid) then 0 else Held(col, h.p.procs, pid))
  {
  }

  lemma UnregisterBalances(col: Column, h: Traced, pid: int)
    requires Balanced(col, h) && !h.p.overrun
    ensures Balanced(col, TraceStep(col, h, Unregister(pid)))
  {
    if Listed(h.p.head, pid) {
      UnregisterBooks(col, h, pid);
      UnlistedResidual(col, h.p.head, h.p.procs, Find(h.p.head, pid));
    }
  }

  lemma UnlistedResidual(col: Column, head: seq<Entry>, procs: map<int, Counters>, i: nat)
    requires i < |head|
    ensures Listed(head, head[i].pid)
    ensures var rest, pid := Without(head, i), head[i].pid;
      Residual(col, Pids(head), procs) == Residual(col, Pids(rest), procs) + if Listed(rest, pid) then 0 else Held(col, procs, pid)
  {
    var rest := Without(head, i);
    assert Pids(rest) == Without(Pids(head), i);
    ListedIsPid(rest, head[i].pid);
    ResidualWithout(col, Pids(head), procs, i);
  }

  lemma ActivityBalances(col: Column, h: Traced, pid: int, gain: Counters)
    requires Balanced(col, h)
    ensures Balanced(col, TraceStep(col, h, Activity(pid, gain)))
  {
    ListedIsPid(h.p.head, pid);
    if pid in h.p.procs {
      ResidualGain(col, Pids(h.p.head), h.p.procs, pid, gain);
    }
  }

  lemma SpawnBalances(col: Column, h: Traced, pid: int, c: Counters)
    requires Balanced(col, h)
    ensures Balanced(col, TraceStep(col, h, Spawn(pid, c)))
  {
    var procs := h.p.procs;
    ListedIsPid(h.p.head, pid);
    if pid !in procs {
      ResidualForget(col, Pids(h.p.head), procs[pid := c], pid);
      assert procs[pid := c] - {pid} == procs;
    }
  }

  lemma StepBalances(col: Column, h: Traced, e: Event)
    requires Balanced(col, h)
    ensures Balanced(col, TraceStep(col, h, e))
  {
    if Enabled(h.p, e) {
      match e
      case Register(pid, junk) => RegisterBalances(col, h, pid, junk);
      case Unregister(pid) => UnregisterBalances(col, h, pid);
      case Work(now) => WorkBalances(col, h, now);
      case Activity(pid, gain) => ActivityBalances(col, h, pid, gain);
      case Spawn(pid, c) => SpawnBalances(col, h, pid, c);
      case Exit(pid) =>
        ListedIsPid(h.p.head, pid);
        ResidualForget(col, Pids(h.p.head), h.p.procs, pid);
      case UserWrite(_) =>
    }
  }

  /** The books balance over every run. */
  lemma {:induction false} EverythingBooked(col: Column, vm: seq<int>, procs: map<int, Counters>, es: seq<Event>)
    ensures Balanced(col, Trace(col, vm, procs, es))
  {
    if es != [] {
      EverythingBooked(col, vm, procs, es[..|es| - 1]);
      StepBalances(col, Trace(col, vm, procs, es[..|es| - 1]), es[|es| - 1]);
    }
  }

  // ---------------------------------------------------------------------------
  // Runs in which listed processes stay alive
  // ---------------------------------------------------------------------------

  /** No process exits while it is listed. */
  predicate KeepsAlive(p: Prof, e: Event) {
    e.Exit? ==> !Listed(p.head, e.pid)
  }

  ghost predicate AliveRun(vm: seq<int>, procs: map<int, Counters>, es: seq<Event>) {
    forall n :: 0 <= n < |es| ==> KeepsAlive(Run(vm, procs, es[..n]), es[n])
  }

  ghost predicate NothingDies(h: Traced) {
    AllAlive(h.p.head, h.p.procs) && h.books.lost == 0 && h.books.recounted == 0
  }

  lemma StepKeepsAlive(col: Column, h: Traced, e: Event)
    requires NothingDies(h) && KeepsAlive(h.p, e)
    ensures NothingDies(TraceStep(col, h, e))
  {
    if e.Work? {
      WorkKeepsAlive(col, h, e.now);
    }
  }

  lemma WorkKeepsAlive(col: Column, h: Traced, now: nat)
    requires NothingDies(h)
    ensures NothingDies(TraceStep(col, h, Work(now)))
  {
    var done := Collect(h.p.head, h.p.procs);
    CollectEffect(h.p.head, h.p.procs);
    NoStaleIfAlive(col, h.p.head, h.p.procs);
    forall i | 0 <= i < |done|
      ensures done[i].pid in After(h.p.head, h.p.procs)
    {
      assert done[i].pid == Pids(done)[i] == Pids(h.p.head)[i] == h.p.head[i].pid;
    }
  }

  lemma {:induction false} AliveThroughout(col: Column, vm: seq<int>, procs: map<int, Counters>, es: seq<Event>)
    requires AliveRun(vm, procs, es)
    ensures NothingDies(Trace(col, vm, procs, es))
  {
    if es != [] {
      var front := es[..|es| - 1];
      forall n | 0 <= n < |front|
        ensures KeepsAlive(Run(vm, procs, front[..n]), front[n])
      {
        assert front[..n] == es[..n] && front[n] == es[n];
      }
      AliveThroughout(col, vm, procs, front);
      StepKeepsAlive(col, Trace(col, vm, procs, front), es[|es| - 1]);
    }
  }

  /** Over every run in which listed processes stay alive, nothing is lost and nothing counted twice. */
  lemma EverythingCountedOnce(col: Column, vm: seq<int>, procs: map<int, Counters>, es: seq<Event>)
    requires AliveRun(vm, procs, es)
    ensures var h := Trace(col, vm, procs, es);
      h.books.recorded + Residual(col, Pids(h.p.head), h.p.procs) + h.books.carried == h.books.observed
  {
    EverythingBooked(col, vm, procs, es);
    AliveThroughout(col, vm, procs, es);
  }

  function Seen(n: nat): Counters {
    Counters(n, 0, 0, 0)
  }

  lemma CollectOne(e: Entry, procs: map<int, Counters>)
    ensures Collect([e], procs) == [ReadEntry(e, procs)] && After([e], procs) == Zeroed(e.pid, procs)
    ensures forall col :: ColumnSum(col, [e]) == Get(col, e.last)
    ensures forall col :: Stale(col, [e], procs) == if e.pid in procs then 0 else Get(col, e.last)
  {
    assert [e][..0] == [];
  }

  /** A sample with process 1 listed alone. */
  lemma SampleOne(h: Traced, last: Counters, now: nat)
    requires h.p.head == [Entry(1, last)] && h.p.queued && !h.p.full && !h.p.overrun && Fits(h.p.offset, |h.p.vm|)
    ensures var z := TraceStep(Minor, h, Work(now));
      var e := ReadEntry(Entry(1, last), h.p.procs);
      var b := h.books;
      && z.p.head == [e] && z.p.procs == Zeroed(1, h.p.procs) && z.p.offset == h.p.offset + 4 && |z.p.vm| == |h.p.vm|
      && z.p.queued && !z.p.overrun && z.p.full == (h.p.offset + 4 >= ELEMENTS)
      && z.session == h.session + [Row(now, e.last.minor, e.last.major, e.last.utime + e.last.stime)]
      && z.books == b.(recorded := b.recorded + e.last.minor,
                       recounted := b.recounted + if 1 in h.p.procs then 0 else last.minor)
  {
    CollectOne(Entry(1, last), h.p.procs);
    CollectOne(ReadEntry(Entry(1, last), h.p.procs), h.p.procs);
  }

  /** Process 1 is listed, with seven faults in its counters. */
  ghost predicate Faulted(h: Traced) {
    && h.p.head == [Entry(1, NONE)] && h.p.procs == map[1 := Seen(7)] && h.p.offset == 0
    && h.p.queued && !h.p.full && !h.p.overrun
    && h.session == [] && h.books == Books(0, 0, 7, 0, 0, 0)
  }

  /** They have been recorded. */
  ghost predicate Sampled(h: Traced) {
    && h.p.head == [Entry(1, Seen(7))] && h.p.procs == ONE_PROCESS && h.p.offset == 4
    && h.p.queued && !h.p.full && !h.p.overrun
    && h.session == [Row(1, 7, 0, 0)] && h.books == Books(7, 0, 7, 0, 0, 0)
  }

  /** Process 1 is listed, and nothing has happened yet. */
  ghost predicate Watched(h: Traced, vm: seq<int>) {
    && h.p == Prof(vm, 0, false, [Entry(1, NONE)], true, ONE_PROCESS, false)
    && h.session == [] && h.books == Books(0, 0, 0, 0, 0, 0)
  }

  lemma Registers(h: Traced, vm: seq<int>)
    requires h == Traced(Init(vm, ONE_PROCESS), [], Books(0, 0, 0, 0, 0, 0))
    ensures Watched(TraceStep(Minor, h, Register(1, NONE)), vm)
  {
    assert !Listed(h.p.head, 1);
  }

  lemma Faults(h: Traced, vm: seq<int>)
    requires Watched(h, vm)
    ensures Faulted(TraceStep(Minor, h, Activity(1, Seen(7)))) && TraceStep(Minor, h, Activity(1, Seen(7))).p.vm == vm
  {
    assert h.p.head[0].pid == 1;
    assert Listed(h.p.head, 1);
  }

  lemma FaultsHappen(vm: seq<int>)
    ensures var h := TraceStep(Minor, TraceStep(Minor, Trace(Minor, vm, ONE_PROCESS, []), Register(1, NONE)), Activity(1, Seen(7)));
      Faulted(h) && |h.p.vm| == |vm|
  {
    var h := Trace(Minor, vm, ONE_PROCESS, []);
    Registers(h, vm);
    Faults(TraceStep(Minor, h, Register(1, NONE)), vm);
  }

  lemma FirstSample(h: Traced)
    requires Faulted(h) && |h.p.vm| >= 9
    ensures var z := TraceStep(Minor, h, Work(1)); Sampled(z) && |z.p.vm| == |h.p.vm|
  {
    SampleOne(h, NONE, 1);
  }

  /** The process dies, and the next sample records the seven faults again. */
  lemma SecondSample(h: Traced)
    requires Sampled(h) && |h.p.vm| >= 9
    ensures var z := TraceStep(Minor, TraceStep(Minor, h, Exit(1)), Work(2));
      z.session == [Row(1, 7, 0, 0), Row(2, 7, 0, 0)] && z.books == Books(14, 0, 7, 0, 0, 7)
  {
    var y := TraceStep(Minor, h, Exit(1));
    assert y.p.procs == map[] && y.books == h.books;
    SampleOne(y, Seen(7), 2);
  }

  lemma RunFive(vm: seq<int>, procs: map<int, Counters>, a: Event, b: Event, c: Event, d: Event, e: Event)
    ensures Trace(Minor, vm, procs, [a, b, c, d, e])
      == TraceStep(Minor, TraceStep(Minor, TraceStep(Minor, TraceStep(Minor, TraceStep(Minor, Trace(Minor, vm, procs, []), a), b), c), d), e)
  {
    RunSnoc(Minor, vm, procs, [], a);
    RunSnoc(Minor, vm, procs, [] + [a], b);
    RunSnoc(Minor, vm, procs, [] + [a] + [b], c);
    RunSnoc(Minor, vm, procs, [] + [a] + [b] + [c], d);
    RunSnoc(Minor, vm, procs, [] + [a] + [b] + [c] + [d], e);
    assert [a, b, c, d, e] == [] + [a] + [b] + [c] + [d] + [e];
  }

  /** A process is listed but dead, and its entry holds what was in memory. */
  ghost predicate Haunted(h: Traced, junk: Counters) {
    && h.p.head == [Entry(1, junk)] && h.p.procs == map[] && h.p.offset == 0
    && h.p.queued && !h.p.full && !h.p.overrun
    && h.session == [] && h.books == Books(0, 0, 0, 0, 0, 0)
  }

  lemma JunkRemains(vm: seq<int>, junk: Counters)
    ensures var h := TraceStep(Minor, TraceStep(Minor, Traced(Init(vm, ONE_PROCESS), [], Books(0, 0, 0, 0, 0, 0)), Register(1, junk)), Exit(1));
      Haunted(h, junk) && h.p.vm == vm
  {
    var h := TraceStep(Minor, Traced(Init(vm, ONE_PROCESS), [], Books(0, 0, 0, 0, 0, 0)), Register(1, junk));
    assert h.p.head == [Entry(1, junk)] && h.p.head[0].pid == 1;
    assert ONE_PROCESS - {1} == map[];
  }

  lemma JunkSampled(h: Traced, junk: Counters)
    requires Haunted(h, junk) && |h.p.vm| >= 5
    ensures var z := TraceStep(Minor, h, Work(1));
      z.session == [Row(1, junk.minor, junk.major, junk.utime + junk.stime)]
      && z.books == Books(junk.minor, 0, 0, 0, 0, junk.minor)
  {
    SampleOne(h, junk, 1);
  }

  /**
    A process that dies before its first sample adds whatever its entry held when it was
    allocated.
   */
  lemma JunkIsCounted(vm: seq<int>, junk: Counters)
    requires |vm| >= 5
    ensures var h := Trace(Minor, vm, ONE_PROCESS, [Register(1, junk), Exit(1), Work(1)]);
      h.session == [Row(1, junk.minor, junk.major, junk.utime + junk.stime)]
      && h.books == Books(junk.minor, 0, 0, 0, 0, junk.minor)
  {
    RunThree(vm, ONE_PROCESS, Register(1, junk), Exit(1), Work(1));
    JunkRemains(vm, junk);
    JunkSampled(TraceStep(Minor, TraceStep(Minor, Traced(Init(vm, ONE_PROCESS), [], Books(0, 0, 0, 0, 0, 0)), Register(1, junk)), Exit(1)), junk);
  }

  lemma RunThree(vm: seq<int>, procs: map<int, Counters>, a: Event, b: Event, c: Event)
    ensures Trace(Minor, vm, procs, [a, b, c])
      == TraceStep(Minor, TraceStep(Minor, TraceStep(Minor, Traced(Init(vm, procs), [], Books(0, 0, 0, 0, 0, 0)), a), b), c)
  {
    RunSnoc(Minor, vm, procs, [], a);
    RunSnoc(Minor, vm, procs, [] + [a], b);
    RunSnoc(Minor, vm, procs, [] + [a] + [b], c);
    assert [a, b, c] == [] + [a] + [b] + [c];
  }

  /** Process 1 has seven faults, a sample is taken, the process dies, another sample is taken: both record the seven. */
  lemma DeadProcessCountedAgain(vm: seq<int>)
    requires |vm| >= 9
    ensures var h := Trace(Minor, vm, ONE_PROCESS, [Register(1, NONE), Activity(1, Seen(7)), Work(1), Exit(1), Work(2)]);
      h.session == [Row(1, 7, 0, 0), Row(2, 7, 0, 0)] && h.books == Books(14, 0, 7, 0, 0, 7)
  {
    RunFive(vm, ONE_PROCESS, Register(1, NONE), Activity(1, Seen(7)), Work(1), Exit(1), Work(2));
    FaultsHappen(vm);
    var h := TraceStep(Minor, TraceStep(Minor, Trace(Minor, vm, ONE_PROCESS, []), Register(1, NONE)), Activity(1, Seen(7)));
    FirstSample(h);
    SecondSample(TraceStep(Minor, h, Work(1)));
  }

  // ---------------------------------------------------------------------------
  // The session's share of the books
  // ---------------------------------------------------------------------------

  function Cell(col: Column, r: Row): nat {
    match col
    case Minor => r.minor
    case Major => r.major
    case Cpu => r.cpu
  }

  function SessionSum(col: Column, rows: seq<Row>): nat {
    if rows == [] then 0 else SessionSum(col, rows[..|rows| - 1]) + Cell(col, rows[|rows| - 1])
  }

  /** What was recorded is what was recorded before the session plus the session's samples. */
  lemma {:induction false} SessionIsBooked(col: Column, vm: seq<int>, procs: map<int, Counters>, es: seq<Event>)
    ensures var h := Trace(col, vm, procs, es);
      h.books.recorded == h.books.earlier + SessionSum(col, h.session)
  {
    if es != [] {
      var h := Trace(col, vm, procs, es[..|es| - 1]);
      SessionIsBooked(col, vm, procs, es[..|es| - 1]);
      SessionStep(col, h, es[|es| - 1]);
    }
  }

  lemma SessionStep(col: Column, h: Traced, e: Event)
    requires h.books.recorded == h.books.earlier + SessionSum(col, h.session)
    ensures var z := TraceStep(col, h, e);
      z.books.recorded == z.books.earlier + SessionSum(col, z.session)
  {
  }
}
