/**
  The page-fault profiler as a state machine over values: the list of registered processes,
  the self-requeuing work item, and the sample buffer.
 */
module Sampler {
  import opened Load

  const ELEMENTS: nat := 128000  // words the module takes its buffer to have
  const VM_SIZE: nat := 512000  // bytes it allocates
  const SENTINEL: int := -1

  /** The counters the kernel keeps for a process. */
  datatype Counters = Counters(minor: nat, major: nat, utime: nat, stime: nat)

  const NONE: Counters := Counters(0, 0, 0, 0)

  function Plus(c: Counters, d: Counters): Counters {
    Counters(c.minor + d.minor, c.major + d.major, c.utime + d.utime, c.stime + d.stime)
  }

  /** The three counted columns of a sample. */
  datatype Column = Minor | Major | Cpu

  function Get(col: Column, c: Counters): nat {
    match col
    case Minor => c.minor
    case Major => c.major
    case Cpu => c.utime + c.stime
  }

  /** A list entry; `last` holds what was read for it most recently, at first whatever was in memory. */
  datatype Entry = Entry(pid: int, last: Counters)

  datatype Row = Row(time: nat, minor: nat, major: nat, cpu: nat)

  function Words(r: Row): seq<int> {
    [r.time, r.minor, r.major, r.cpu]
  }

  /**
    `procs` are the living processes with their counters.  `overrun` says that the work item
    wrote beyond the buffer; nothing is said of what the module does after that.
   */
  datatype Prof = Prof(
    vm: seq<int>,
    offset: nat,
    full: bool,
    head: seq<Entry>,
    queued: bool,
    procs: map<int, Counters>,
    overrun: bool)

  datatype Event =
    | Register(pid: int, junk: Counters)
    | Unregister(pid: int)
    | Work(now: nat)
    | Activity(pid: int, gain: Counters)
    | Spawn(pid: int, counters: Counters)
    | Exit(pid: int)
    | UserWrite(vm: seq<int>)

  // ---------------------------------------------------------------------------
  // Sampling
  // ---------------------------------------------------------------------------

  /** What an entry holds after reading a living process; a dead one's entry stays as it was. */
  function ReadEntry(e: Entry, procs: map<int, Counters>): Entry {
    if e.pid in procs then e.(last := procs[e.pid]) else e
  }

  /** Reading zeroes the counters of a living process. */
  function Zeroed(pid: int, procs: map<int, Counters>): map<int, Counters> {
    if pid in procs then procs[pid := NONE] else procs
  }

  /** The processes after a pass over the list. */
  function After(head: seq<Entry>, procs: map<int, Counters>): map<int, Counters> {
    if head == [] then procs else Zeroed(head[|head| - 1].pid, After(head[..|head| - 1], procs))
  }

  /** The pass over the list: each entry in turn is read from what the earlier ones left. */
  function Collect(head: seq<Entry>, procs: map<int, Counters>): (done: seq<Entry>)
    ensures |done| == |head|
  {
    if head == [] then [] else
      var front := head[..|head| - 1];
      Collect(front, procs) + [ReadEntry(head[|head| - 1], After(front, procs))]
  }

  /** The sum of one column over what the entries hold. */
  function ColumnSum(col: Column, head: seq<Entry>): nat {
    if head == [] then 0 else ColumnSum(col, head[..|head| - 1]) + Get(col, head[|head| - 1].last)
  }

  /** The sample that the pass yields. */
  function SampleOf(head: seq<Entry>, now: nat): Row {
    Row(now, ColumnSum(Minor, head), ColumnSum(Major, head), ColumnSum(Cpu, head))
  }

  /** The positions of the row at `offset`, and of the sentinel behind it if one is written. */
  function Touched(offset: nat): set<nat> {
    {offset, offset + 1, offset + 2, offset + 3} + if offset + 4 >= ELEMENTS then {} else {offset + 4}
  }

  predicate Fits(offset: nat, capacity: nat) {
    offset + (if offset + 4 >= ELEMENTS then 4 else 5) <= capacity
  }

  /** The buffer after a row, and a sentinel unless the row is the last, are written at `offset`. */
  function WriteRow(vm: seq<int>, offset: nat, r: Row): seq<int>
    requires Fits(offset, |vm|)
  {
    var v := vm[offset := r.time][offset + 1 := r.minor][offset + 2 := r.major][offset + 3 := r.cpu];
    if offset + 4 >= ELEMENTS then v else v[offset + 4 := SENTINEL]
  }

  // ---------------------------------------------------------------------------
  // Steps
  // ---------------------------------------------------------------------------

  /** The index of the first entry from `i` on with the given pid, or -1. */
  function Find(head: seq<Entry>, pid: int, i: nat := 0): (r: int)
    requires i <= |head|
    ensures r == -1 || i <= r < |head|
    ensures r >= 0 ==> head[r].pid == pid && forall j :: i <= j < r ==> head[j].pid != pid
    ensures r == -1 ==> forall j :: i <= j < |head| ==> head[j].pid != pid
    decreases |head| - i
  {
    if i == |head| then -1 else if head[i].pid == pid then i else Find(head, pid, i + 1)
  }

  function RegisterStep(p: Prof, pid: int, junk: Counters): Prof {
    if pid !in p.procs then p
    else p.(queued := p.queued || p.head == [], head := p.head + [Entry(pid, junk)])
  }

  function UnregisterStep(p: Prof, pid: int): Prof {
    var i := Find(p.head, pid);
    if i == -1 then p else
      var head := Without(p.head, i);
      p.(head := head,
         offset := if head == [] then 0 else p.offset,
         queued := head != [] && p.queued)
  }

  /** The work item runs: it takes a sample and queues itself again, unless the buffer is marked full. */
  function WorkStep(p: Prof, now: nat): Prof {
    if p.full then p.(queued := false)
    else if !Fits(p.offset, |p.vm|) then p.(overrun := true)
    else
      var head := Collect(p.head, p.procs);
      p.(vm := WriteRow(p.vm, p.offset, SampleOf(head, now)),
         offset := p.offset + 4,
         full := p.offset + 4 >= ELEMENTS,
         head := head, procs := After(p.head, p.procs), queued := true)
  }

  /** The work item runs when queued; the user program touches the buffer while nothing is registered. */
  predicate Enabled(p: Prof, e: Event) {
    !p.overrun &&
    match e
    case Work(_) => p.queued
    case Spawn(pid, _) => pid !in p.procs
    case UserWrite(vm) => p.head == [] && |vm| == |p.vm|
    case _ => true
  }

  function Step(p: Prof, e: Event): Prof {
    if !Enabled(p, e) then p else
    match e
    case Register(pid, junk) => RegisterStep(p, pid, junk)
    case Unregister(pid) => UnregisterStep(p, pid)
    case Work(now) => WorkStep(p, now)
    case Activity(pid, gain) =>
      if pid in p.procs then p.(procs := p.procs[pid := Plus(p.procs[pid], gain)]) else p
    case Spawn(pid, c) => p.(procs := p.procs[pid := c])
    case Exit(pid) => p.(procs := p.procs - {pid})
    case UserWrite(vm) => p.(vm := vm)
  }

  function Init(vm: seq<int>, procs: map<int, Counters>): Prof {
    Prof(vm, 0, false, [], false, procs, false)
  }

  function Run(vm: seq<int>, procs: map<int, Counters>, es: seq<Event>): Prof {
    if es == [] then Init(vm, procs) else Step(Run(vm, procs, es[..|es| - 1]), es[|es| - 1])
  }

  // ---------------------------------------------------------------------------
  // Runs with their history
  // ---------------------------------------------------------------------------

  /** One column of a living process's counters. */
  function Held(col: Column, procs: map<int, Counters>, pid: int): nat {
    if pid in procs then Get(col, procs[pid]) else 0
  }

  /** What the entries of dead processes still hold from an earlier reading, or from memory. */
  function Stale(col: Column, head: seq<Entry>, procs: map<int, Counters>): nat {
    if head == [] then 0 else
      var e := head[|head| - 1];
      Stale(col, head[..|head| - 1], procs) + if e.pid in procs then 0 else Get(col, e.last)
  }

  /**
    The books of one column: the sum over all samples ever taken and over those before the
    session, the counts that came under observation, those that processes took along when
    they were unregistered or died, and those that samples took from dead entries.
   */
  datatype Books = Books(recorded: nat, earlier: nat, observed: nat, carried: nat, lost: nat, recounted: nat)

  /**
    The samples of the current session (since the list was last empty, and until the user
    program touches the buffer), and the books of one column.
   */
  datatype Traced = Traced(p: Prof, session: seq<Row>, books: Books)

  predicate Listed(head: seq<Entry>, pid: int) {
    exists i :: 0 <= i < |head| && head[i].pid == pid
  }

  /** The samples of the session after an event that occurs. */
  function SessionAfter(h: Traced, e: Event): seq<Row> {
    var p, z := h.p, Step(h.p, e);
    match e
    case Register(pid, _) => if pid in p.procs && p.head == [] then [] else h.session
    case Work(now) => if p.full || z.overrun then h.session else h.session + [SampleOf(z.head, now)]
    case UserWrite(_) => []
    case _ => h.session
  }

  /** The books after an event that occurs. */
  function BooksAfter(col: Column, h: Traced, e: Event): Books {
    var p, z, b := h.p, Step(h.p, e), h.books;
    match e
    case Register(pid, _) =>
      if pid !in p.procs then b else
        b.(earlier := if p.head == [] then b.recorded else b.earlier,
           observed := b.observed + if Listed(p.head, pid) then 0 else Held(col, p.procs, pid))
    case Unregister(pid) =>
      b.(carried := b.carried + if Listed(p.head, pid) && !Listed(z.head, pid) then Held(col, p.procs, pid) else 0)
    case Work(now) =>
      if p.full || z.overrun then b else
        b.(recorded := b.recorded + ColumnSum(col, z.head), recounted := b.recounted + Stale(col, p.head, p.procs))
    case Activity(pid, gain) =>
      b.(observed := b.observed + if pid in p.procs && Listed(p.head, pid) then Get(col, gain) else 0)
    case Spawn(pid, c) => b.(observed := b.observed + if Listed(p.head, pid) then Get(col, c) else 0)
    case Exit(pid) => b.(lost := b.lost + if Listed(p.head, pid) then Held(col, p.procs, pid) else 0)
    case UserWrite(_) => b.(earlier := b.recorded)
  }

  function TraceStep(col: Column, h: Traced, e: Event): (z: Traced)
    ensures z.p == Step(h.p, e)
  {
    if !Enabled(h.p, e) then h else Traced(Step(h.p, e), SessionAfter(h, e), BooksAfter(col, h, e))
  }

  function Trace(col: Column, vm: seq<int>, procs: map<int, Counters>, es: seq<Event>): (h: Traced)
    ensures h.p == Run(vm, procs, es)
  {
    if es == [] then Traced(Init(vm, procs), [], Books(0, 0, 0, 0, 0, 0))
    else TraceStep(col, Trace(col, vm, procs, es[..|es| - 1]), es[|es| - 1])
  }

  // ---------------------------------------------------------------------------
  // The buffer and the work item
  // ---------------------------------------------------------------------------

  /** The buffer starts with these rows, and with a sentinel after them unless they are as many as it may hold. */
  ghost predicate Holds(vm: seq<int>, rows: seq<Row>) {
    && 4 * |rows| <= ELEMENTS && 4 * |rows| <= |vm|
    && (forall k :: 0 <= k < |rows| ==> vm[4 * k..4 * k + 4] == Words(rows[k]))
    && (0 < 4 * |rows| < ELEMENTS ==> 4 * |rows| < |vm| && vm[4 * |rows|] == SENTINEL)
  }

  ghost predicate Sound(h: Traced) {
    var p := h.p;
    && Holds(p.vm, h.session)
    && (p.head == [] ==> p.offset == 0 && !p.queued)
    && (p.head != [] ==> p.offset == 4 * |h.session|)
    && (p.head != [] && !p.full ==> p.queued && p.offset < ELEMENTS)
  }

  lemma WriteRowHolds(vm: seq<int>, rows: seq<Row>, r: Row)
    requires Holds(vm, rows) && 4 * |rows| + 4 <= ELEMENTS && Fits(4 * |rows|, |vm|)
    ensures |WriteRow(vm, 4 * |rows|, r)| == |vm|
    ensures Holds(WriteRow(vm, 4 * |rows|, r), rows + [r])
  {
    var v, n := WriteRow(vm, 4 * |rows|, r), |rows|;
    assert v[4 * n..4 * n + 4] == Words(r);
    forall k | 0 <= k < n
      ensures v[4 * k..4 * k + 4] == Words(rows[k])
    {
      assert v[4 * k..4 * k + 4] == vm[4 * k..4 * k + 4];
    }
  }

  lemma WorkSound(col: Column, h: Traced, now: nat)
    requires Sound(h) && Enabled(h.p, Work(now))
    ensures Sound(TraceStep(col, h, Work(now))) && |TraceStep(col, h, Work(now)).p.vm| == |h.p.vm|
  {
    if !h.p.full && Fits(h.p.offset, |h.p.vm|) {
      WriteRowHolds(h.p.vm, h.session, SampleOf(Collect(h.p.head, h.p.procs), now));
    }
  }

  lemma StepSound(col: Column, h: Traced, e: Event)
    requires Sound(h)
    ensures Sound(TraceStep(col, h, e)) && |TraceStep(col, h, e).p.vm| == |h.p.vm|
  {
    if Enabled(h.p, e) {
      match e
      case Work(now) => WorkSound(col, h, now);
      case _ =>
    }
  }

  /**
    In every state of every run, with a buffer of any size: the buffer holds the session's
    samples in order and the sentinel behind them; exactly one work item is queued while
    processes are listed and the buffer is not marked full; none is queued while no process is
    listed.
   */
  lemma {:induction false} AlwaysSound(col: Column, vm: seq<int>, procs: map<int, Counters>, es: seq<Event>)
    ensures Sound(Trace(col, vm, procs, es)) && |Trace(col, vm, procs, es).p.vm| == |vm|
  {
    if es != [] {
      AlwaysSound(col, vm, procs, es[..|es| - 1]);
      StepSound(col, Trace(col, vm, procs, es[..|es| - 1]), es[|es| - 1]);
    }
  }

  // ---------------------------------------------------------------------------
  // The end of the buffer
  // ---------------------------------------------------------------------------

  /** Exactly the words within the buffer fit, and the step changes no others. */
  lemma WorkTouches(p: Prof, now: nat)
    requires p.queued && !p.full && !p.overrun
    ensures var z := Step(p, Work(now));
      && (z.overrun <==> !(forall j :: j in Touched(p.offset) ==> j < |p.vm|))
      && |z.vm| == |p.vm| && forall j: nat :: j < |p.vm| && j !in Touched(p.offset) ==> z.vm[j] == p.vm[j]
  {
    TouchedFits(p.offset, |p.vm|);
    assert Step(p, Work(now)) == WorkStep(p, now);
    if Fits(p.offset, |p.vm|) {
      WriteRowTouches(p.vm, p.offset, SampleOf(Collect(p.head, p.procs), now));
    }
  }

  lemma WriteRowTouches(vm: seq<int>, offset: nat, r: Row)
    requires Fits(offset, |vm|)
    ensures |WriteRow(vm, offset, r)| == |vm|
    ensures forall j: nat :: j < |vm| && j !in Touched(offset) ==> WriteRow(vm, offset, r)[j] == vm[j]
  {
  }

  lemma TouchedFits(offset: nat, capacity: nat)
    ensures Fits(offset, capacity) <==> forall j :: j in Touched(offset) ==> j < capacity
  {
    if offset + 4 >= ELEMENTS {
      assert offset + 3 in Touched(offset);
    } else {
      assert offset + 4 in Touched(offset);
    }
  }

  /**
    A queued work item, with the buffer not marked full, writes the row behind the session's
    samples.  All words it writes lie within the buffer if and only if the session has fewer
    samples than a buffer of this size can take.
   */
  lemma WorkStaysInBoundsIff(col: Column, vm: seq<int>, procs: map<int, Counters>, es: seq<Event>, now: nat)
    requires var p := Run(vm, procs, es); p.queued && !p.full && !p.overrun
    ensures var h := Trace(col, vm, procs, es);
      && h.p.offset == 4 * |h.session| < ELEMENTS
      && ((forall j :: j in Touched(h.p.offset) ==> j < |vm|) <==> !Step(h.p, Work(now)).overrun)
      && (Step(h.p, Work(now)).overrun <==> |vm| < ELEMENTS && |vm| <= 4 * |h.session| + 4)
  {
    AlwaysSound(col, vm, procs, es);
    WorkTouches(Run(vm, procs, es), now);
    OverrunPoint(Trace(col, vm, procs, es), now);
  }

  lemma OverrunPoint(h: Traced, now: nat)
    requires Sound(h) && h.p.queued && !h.p.full && !h.p.overrun
    ensures h.p.offset == 4 * |h.session| < ELEMENTS
    ensures Step(h.p, Work(now)).overrun <==> |h.p.vm| < ELEMENTS && |h.p.vm| <= 4 * |h.session| + 4
  {
  }

  lemma LargeBufferFits(h: Traced, now: nat)
    requires Sound(h) && h.p.queued && !h.p.overrun && |h.p.vm| >= ELEMENTS
    ensures !Step(h.p, Work(now)).overrun
  {
  }

  lemma {:induction false} LargeBufferNeverOverrun(vm: seq<int>, procs: map<int, Counters>, es: seq<Event>)
    requires |vm| >= ELEMENTS
    ensures !Run(vm, procs, es).overrun
  {
    if es != [] {
      var front, e := es[..|es| - 1], es[|es| - 1];
      LargeBufferNeverOverrun(vm, procs, front);
      if e.Work? && Enabled(Run(vm, procs, front), e) {
        AlwaysSound(Minor, vm, procs, front);
        LargeBufferFits(Trace(Minor, vm, procs, front), e.now);
      }
    }
  }

  const ONE_PROCESS: map<int, Counters> := map[1 := NONE]

  /** One process registers, and the work item runs `n` times. */
  function Sampling(n: nat): seq<Event> {
    if n == 0 then [Register(1, NONE)] else Sampling(n - 1) + [Work(n)]
  }

  lemma RunSnoc(col: Column, vm: seq<int>, procs: map<int, Counters>, es: seq<Event>, e: Event)
    ensures Trace(col, vm, procs, es + [e]) == TraceStep(col, Trace(col, vm, procs, es), e)
  {
    assert (es + [e])[..|es|] == es;
  }

  /** The number of samples that fit, each with a sentinel behind it. */
  function Room(capacity: nat): nat {
    if capacity == 0 then 0 else (capacity - 1) / 4
  }

  /** As long as row and sentinel fit, each run of the work item appends a sample. */
  lemma {:induction false} SamplingFills(vm: seq<int>, n: nat)
    requires n <= Room(|vm|) && 4 * n + 1 <= ELEMENTS
    ensures var h := Trace(Minor, vm, ONE_PROCESS, Sampling(n));
      |h.session| == n && h.p.head != [] && !h.p.full && !h.p.overrun
  {
    if n == 0 {
      RunSnoc(Minor, vm, ONE_PROCESS, [], Register(1, NONE));
      assert [] + [Register(1, NONE)] == Sampling(0);
      assert |Trace(Minor, vm, ONE_PROCESS, Sampling(0)).session| == 0;
    } else {
      SamplingFills(vm, n - 1);
      RunSnoc(Minor, vm, ONE_PROCESS, Sampling(n - 1), Work(n));
      AlwaysSound(Minor, vm, ONE_PROCESS, Sampling(n - 1));
      SampleAppends(Trace(Minor, vm, ONE_PROCESS, Sampling(n - 1)), n);
    }
  }

  lemma SampleAppends(h: Traced, now: nat)
    requires Sound(h) && h.p.head != [] && !h.p.full && !h.p.overrun
    requires 4 * |h.session| + 5 <= |h.p.vm| && 4 * |h.session| + 5 <= ELEMENTS
    ensures var z := TraceStep(Minor, h, Work(now));
      |z.session| == |h.session| + 1 && z.p.head != [] && !z.p.full && !z.p.overrun
  {
  }

  /** A buffer that is too small takes the samples that fit, and the next one overruns. */
  lemma SmallBufferOverruns(vm: seq<int>)
    requires |vm| < ELEMENTS
    ensures var n := Room(|vm|);
      && !Run(vm, ONE_PROCESS, Sampling(n)).overrun && |Trace(Minor, vm, ONE_PROCESS, Sampling(n)).session| == n
      && Run(vm, ONE_PROCESS, Sampling(n + 1)).overrun
  {
    var n := Room(|vm|);
    SamplingFills(vm, n);
    RunSnoc(Minor, vm, ONE_PROCESS, Sampling(n), Work(n + 1));
    AlwaysSound(Minor, vm, ONE_PROCESS, Sampling(n));
  }

  /** The module never writes beyond its buffer if and only if the buffer has all the words the module takes it to have. */
  lemma NeverOverrunsIff(vm: seq<int>)
    ensures (forall procs, es :: !Run(vm, procs, es).overrun) <==> |vm| >= ELEMENTS
  {
    if |vm| >= ELEMENTS {
      forall procs, es
        ensures !Run(vm, procs, es).overrun
      {
        LargeBufferNeverOverrun(vm, procs, es);
      }
    } else {
      SmallBufferOverruns(vm);
    }
  }

  /** Of the bytes it allocates, that is the case if and only if a word takes at most four. */
  lemma WordsOfFourBytesIff(vm: seq<int>, word: nat)
    requires word > 0 && |vm| == VM_SIZE / word
    ensures (forall procs, es :: !Run(vm, procs, es).overrun) <==> word <= 4
  {
    NeverOverrunsIff(vm);
    CapacityIn(word);
  }

  lemma CapacityIn(word: nat)
    requires word > 0
    ensures VM_SIZE / word >= ELEMENTS <==> word <= 4
  {
  }

  /** With words of eight bytes, 15999 samples fit; the sentinel behind sample 16000 is beyond the buffer. */
  lemma EightByteWordsOverrun(vm: seq<int>)
    requires |vm| == VM_SIZE / 8
    ensures var n := Room(|vm|);
      && n == 15999 && 4 * n + 4 == |vm| && |vm| in Touched(4 * n)
      && !Run(vm, ONE_PROCESS, Sampling(n)).overrun && Run(vm, ONE_PROCESS, Sampling(n + 1)).overrun
  {
    SmallBufferOverruns(vm);
  }

  // ---------------------------------------------------------------------------
  // The times of samples
  // ---------------------------------------------------------------------------

  /** Whether an event is a work item that takes a sample. */
  predicate TakesSample(p: Prof, e: Event) {
    e.Work? && Enabled(p, e) && !p.full && Fits(p.offset, |p.vm|)
  }

  /** Whether an event ends the session: the user program touches the buffer, or a first process registers. */
  predicate EndsSession(p: Prof, e: Event) {
    Enabled(p, e) && (e.UserWrite? || (e.Register? && e.pid in p.procs && p.head == []))
  }

  /** When the work items of the session ran. */
  function WorkTimes(vm: seq<int>, procs: map<int, Counters>, es: seq<Event>): seq<nat> {
    if es == [] then [] else
      var front, e := es[..|es| - 1], es[|es| - 1];
      var p := Run(vm, procs, front);
      if EndsSession(p, e) then []
      else if TakesSample(p, e) then WorkTimes(vm, procs, front) + [e.now]
      else WorkTimes(vm, procs, front)
  }

  lemma StepTimes(col: Column, h: Traced, e: Event)
    ensures var z := TraceStep(col, h, e);
      if EndsSession(h.p, e) then z.session == []
      else if TakesSample(h.p, e) then
        |z.session| == |h.session| + 1 && z.session[..|h.session|] == h.session && z.session[|h.session|].time == e.now
      else z.session == h.session
  {
  }

  /** The samples of a session carry the times of its work items, in order. */
  lemma {:induction false} SessionTimes(col: Column, vm: seq<int>, procs: map<int, Counters>, es: seq<Event>)
    ensures var session, times := Trace(col, vm, procs, es).session, WorkTimes(vm, procs, es);
      |session| == |times| && forall k :: 0 <= k < |times| ==> session[k].time == times[k]
  {
    if es != [] {
      var front, e := es[..|es| - 1], es[|es| - 1];
      SessionTimes(col, vm, procs, front);
      StepTimes(col, Trace(col, vm, procs, front), e);
    }
  }

  lemma RowIsTimed(vm: seq<int>, offset: nat, r: Row)
    requires Fits(offset, |vm|)
    ensures |WriteRow(vm, offset, r)| == |vm| && WriteRow(vm, offset, r)[offset] == r.time
  {
  }

  lemma StepIsTimed(p: Prof, now: nat)
    requires TakesSample(p, Work(now))
    ensures p.offset < |Step(p, Work(now)).vm| && Step(p, Work(now)).vm[p.offset] == now
  {
    RowIsTimed(p.vm, p.offset, SampleOf(Collect(p.head, p.procs), now));
  }

  /** The first word that a sample writes is the time at which the work item runs. */
  lemma SampleIsTimed(vm: seq<int>, procs: map<int, Counters>, es: seq<Event>, now: nat)
    requires TakesSample(Run(vm, procs, es), Work(now))
    ensures var p, z := Run(vm, procs, es), Run(vm, procs, es + [Work(now)]);
      p.offset < |z.vm| && z.vm[p.offset] == now
  {
    StepIsTimed(Run(vm, procs, es), now);
    assert (es + [Work(now)])[..|es|] == es;
  }

  // ---------------------------------------------------------------------------
  // The full mark
  // ---------------------------------------------------------------------------

  lemma StepStaysFull(col: Column, h: Traced, e: Event)
    requires h.p.full
    ensures var z := TraceStep(col, h, e);
      && z.p.full && z.books.recorded == h.books.recorded
      && (z.session == h.session || z.session == [])
  {
  }

  /** The mark is never taken back: whatever happens after it, no sample is recorded any more. */
  lemma {:induction false} FullIsForever(col: Column, vm: seq<int>, procs: map<int, Counters>, es: seq<Event>, fs: seq<Event>)
    requires Run(vm, procs, es).full
    ensures var h, z := Trace(col, vm, procs, es), Trace(col, vm, procs, es + fs);
      && z.p.full && z.books.recorded == h.books.recorded
      && (z.session == h.session || z.session == [])
  {
    if fs == [] {
      assert es + fs == es;
    } else {
      var n := |fs| - 1;
      FullIsForever(col, vm, procs, es, fs[..n]);
      assert es + fs == es + fs[..n] + [fs[n]];
      RunSnoc(col, vm, procs, es + fs[..n], fs[n]);
      StepStaysFull(col, Trace(col, vm, procs, es + fs[..n]), fs[n]);
    }
  }

  const SAMPLES: nat := 32000  // the samples that a buffer with all its words holds

  /** Some session of the run so far has come to its last sample. */
  ghost predicate Filled(vm: seq<int>, procs: map<int, Counters>, es: seq<Event>) {
    exists n: nat :: n <= |es| && |Trace(Minor, vm, procs, es[..n]).session| == SAMPLES
  }

  lemma StepMarks(h: Traced, e: Event)
    requires Sound(h) && (|h.session| == SAMPLES ==> h.p.full)
    ensures var z := TraceStep(Minor, h, e);
      && (|z.session| == SAMPLES ==> z.p.full)
      && (z.p.full && !h.p.full ==> |z.session| == SAMPLES)
  {
  }

  lemma {:induction false} LastSampleMarks(vm: seq<int>, procs: map<int, Counters>, es: seq<Event>)
    ensures |Trace(Minor, vm, procs, es).session| == SAMPLES ==> Run(vm, procs, es).full
  {
    if es != [] {
      var front := es[..|es| - 1];
      LastSampleMarks(vm, procs, front);
      AlwaysSound(Minor, vm, procs, front);
      StepMarks(Trace(Minor, vm, procs, front), es[|es| - 1]);
    }
  }

  lemma {:induction false} MarkedByLastSample(vm: seq<int>, procs: map<int, Counters>, es: seq<Event>)
    requires Run(vm, procs, es).full
    ensures Filled(vm, procs, es)
  {
    var m := |es| - 1;
    var front := es[..m];
    if Run(vm, procs, front).full {
      MarkedByLastSample(vm, procs, front);
      var n: nat :| n <= m && |Trace(Minor, vm, procs, front[..n]).session| == SAMPLES;
      assert front[..n] == es[..n];
    } else {
      LastSampleMarks(vm, procs, front);
      AlwaysSound(Minor, vm, procs, front);
      StepMarks(Trace(Minor, vm, procs, front), es[m]);
      assert es[..|es|] == es;
    }
  }

  lemma FilledStaysFull(vm: seq<int>, procs: map<int, Counters>, ds: seq<Event>, fs: seq<Event>)
    requires |Trace(Minor, vm, procs, ds).session| == SAMPLES
    ensures Run(vm, procs, ds + fs).full
  {
    LastSampleMarks(vm, procs, ds);
    FullIsForever(Minor, vm, procs, ds, fs);
  }

  lemma FilledIsFull(vm: seq<int>, procs: map<int, Counters>, es: seq<Event>, n: nat)
    requires n <= |es| && |Trace(Minor, vm, procs, es[..n]).session| == SAMPLES
    ensures Run(vm, procs, es).full
  {
    FilledStaysFull(vm, procs, es[..n], es[n..]);
    assert es[..n] + es[n..] == es;
  }

  /** In every run, the buffer is marked full if and only if some session so far has had 32000 samples. */
  lemma FullIff(vm: seq<int>, procs: map<int, Counters>, es: seq<Event>)
    ensures Run(vm, procs, es).full <==> Filled(vm, procs, es)
  {
    if Filled(vm, procs, es) {
      var n: nat :| n <= |es| && |Trace(Minor, vm, procs, es[..n]).session| == SAMPLES;
      FilledIsFull(vm, procs, es, n);
    }
    if Run(vm, procs, es).full {
      MarkedByLastSample(vm, procs, es);
    }
  }

  /**
    In a buffer with all its words, a queued work item appends its sample to the session if and
    only if no session so far has had 32000 samples; otherwise it records nothing.
   */
  lemma RecordsIff(col: Column, vm: seq<int>, procs: map<int, Counters>, es: seq<Event>, now: nat)
    requires |vm| >= ELEMENTS && Run(vm, procs, es).queued
    ensures var h, z := Trace(col, vm, procs, es), Trace(col, vm, procs, es + [Work(now)]);
      if Filled(vm, procs, es) then z.session == h.session && z.books == h.books
      else z.session == h.session + [SampleOf(z.p.head, now)]
  {
    FullIff(vm, procs, es);
    RunSnoc(col, vm, procs, es, Work(now));
    AlwaysSound(col, vm, procs, es);
    LargeBufferNeverOverrun(vm, procs, es);
    LargeBufferFits(Trace(col, vm, procs, es), now);
  }

  /**
    When a work item is queued: from the registration of a living process in an empty list, or
    from before; until the list empties, or the item runs with the buffer marked full.
   */
  lemma QueuedAfter(p: Prof, e: Event)
    requires Enabled(p, e) && (p.head == [] ==> !p.queued)
    ensures Step(p, e).queued <==>
      || (e.Register? && e.pid in p.procs && p.head == [])
      || (p.queued && Step(p, e).head != [] && !(e.Work? && p.full))
  {
  }

  /** An example: one process, sampled until the buffer is marked full. */
  lemma FullAfter(vm: seq<int>)
    requires |vm| >= ELEMENTS
    ensures !Run(vm, ONE_PROCESS, Sampling(31999)).full && Run(vm, ONE_PROCESS, Sampling(32000)).full
  {
    SamplingFills(vm, 31999);
    RunSnoc(Minor, vm, ONE_PROCESS, Sampling(31999), Work(32000));
    AlwaysSound(Minor, vm, ONE_PROCESS, Sampling(31999));
  }
}
