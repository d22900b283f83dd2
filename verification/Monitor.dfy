/**
  The user program that drains the sample buffer: it looks for the first word that is not a
  sentinel and prints rows of four words from there, wrapping around at BUFD_MAX and
  overwriting each word it reads by the sentinel, until a row would start with a sentinel.
 */
module Monitor {
  import opened Sampler
  import opened Conservation

  const BUFD_MAX: nat := 48000
  const ROWS: nat := 12000

  // ---------------------------------------------------------------------------
  // The ring of words that a drain visits
  // ---------------------------------------------------------------------------

  /** The position visited after `m` words from start `s`. */
  function Slot(s: nat, m: nat): nat {
    if s + m < BUFD_MAX then s + m else s + m - BUFD_MAX
  }

  /** When position `j` is visited from start `s`. */
  function Rank(s: nat, j: nat): int {
    if j >= s then j - s else j + BUFD_MAX - s
  }

  /** The first `done` words from `s` are blanked, all others as before. */
  ghost predicate Partway(before: seq<int>, now: seq<int>, s: nat, done: nat) {
    && |now| == |before|
    && forall j :: 0 <= j < |before| ==>
         now[j] == if j < BUFD_MAX && Rank(s, j) < done then SENTINEL else before[j]
  }

  /** The k-th row of four words from `s`. */
  function RowAt(b: seq<int>, s: nat, k: nat): seq<int>
    requires s < BUFD_MAX <= |b| && k < ROWS
  {
    [b[Slot(s, 4 * k)], b[Slot(s, 4 * k + 1)], b[Slot(s, 4 * k + 2)], b[Slot(s, 4 * k + 3)]]
  }

  /** The rows from `s` up to the first that starts with a sentinel, or once around the ring. */
  ghost predicate PrintsFrom(b: seq<int>, s: nat, rows: seq<seq<int>>)
    requires s < BUFD_MAX <= |b|
  {
    && |rows| <= ROWS
    && (forall k :: 0 <= k < |rows| ==> rows[k] == RowAt(b, s, k) && rows[k][0] != SENTINEL)
    && (|rows| < ROWS ==> b[Slot(s, 4 * |rows|)] == SENTINEL)
  }

  ghost predicate AllBlank(b: seq<int>, n: nat)
    requires n <= |b|
  {
    forall j :: 0 <= j < n ==> b[j] == SENTINEL
  }

  // ---------------------------------------------------------------------------
  // Termination
  // ---------------------------------------------------------------------------

  /** The number of words that are not sentinels. */
  function Count(b: seq<int>): nat {
    if b == [] then 0 else Count(b[..|b| - 1]) + if b[|b| - 1] == SENTINEL then 0 else 1
  }

  lemma {:induction false} CountBlank(b: seq<int>, i: nat)
    requires i < |b|
    ensures Count(b[i := SENTINEL]) == Count(b) - if b[i] == SENTINEL then 0 else 1
  {
    var n := |b| - 1;
    if i == n {
      assert b[i := SENTINEL][..n] == b[..n];
    } else {
      CountBlank(b[..n], i);
      assert b[i := SENTINEL][..n] == b[..n][i := SENTINEL];
    }
  }

  // ---------------------------------------------------------------------------
  // The program
  // ---------------------------------------------------------------------------

  /** The first position below BUFD_MAX that is not a sentinel, or BUFD_MAX. */
  method Search(buf: array<int>) returns (index: nat)
    requires buf.Length > BUFD_MAX
    ensures index <= BUFD_MAX && AllBlank(buf[..], index)
    ensures index < BUFD_MAX ==> buf[index] != SENTINEL
  {
    index := 0;
    while index < BUFD_MAX
      invariant index <= BUFD_MAX && AllBlank(buf[..], index)
    {
      if buf[index] != SENTINEL {
        break;
      }
      index := index + 1;
    }
  }

  /** Read a word, blank it, and move on, back to 0 at BUFD_MAX. */
  method TakeWord(buf: array<int>, index: nat) returns (word: int, next: nat)
    requires index <= BUFD_MAX < buf.Length
    modifies buf
    ensures word == old(buf[index]) && buf[..] == old(buf[..])[index := SENTINEL]
    ensures next == Next(index)
    ensures Count(buf[..]) == Count(old(buf[..])) - if word == SENTINEL then 0 else 1
  {
    CountBlank(buf[..], index);
    word := buf[index];
    buf[index] := SENTINEL;
    next := index + 1;
    if next >= BUFD_MAX {
      next := 0;
    }
  }

  /** Where the word after position `i` is. */
  function Next(i: nat): nat {
    if i + 1 >= BUFD_MAX then 0 else i + 1
  }

  /** Four words from position `i` are read and blanked. */
  ghost predicate TakesRow(before: seq<int>, after: seq<int>, i: nat, row: seq<int>, next: nat)
    requires i <= BUFD_MAX < |before|
  {
    var i1, i2, i3 := Next(i), Next(Next(i)), Next(Next(Next(i)));
    && row == [before[i], before[i1], before[i2], before[i3]] && next == Next(i3)
    && after == before[i := SENTINEL][i1 := SENTINEL][i2 := SENTINEL][i3 := SENTINEL]
  }

  method TakeRow(buf: array<int>, index: nat) returns (row: seq<int>, next: nat)
    requires index <= BUFD_MAX < buf.Length && buf[index] != SENTINEL
    modifies buf
    ensures next < BUFD_MAX && Count(buf[..]) < Count(old(buf[..]))
    ensures TakesRow(old(buf[..]), buf[..], index, row, next)
  {
    var w0, i1 := TakeWord(buf, index);
    var w1, i2 := TakeWord(buf, i1);
    var w2, i3 := TakeWord(buf, i2);
    var w3, i4 := TakeWord(buf, i3);
    row, next := [w0, w1, w2, w3], i4;
  }

  lemma RowAdvances(before: seq<int>, now: seq<int>, after: seq<int>, s: nat, k: nat, row: seq<int>, next: nat)
    requires s < BUFD_MAX < |before| && k < ROWS && Partway(before, now, s, 4 * k)
    requires TakesRow(now, after, Slot(s, 4 * k), row, next)
    ensures Partway(before, after, s, 4 * k + 4)
    ensures row == RowAt(before, s, k) && next == Slot(s, 4 * k + 4)
  {
    var i := Slot(s, 4 * k);
    assert Next(i) == Slot(s, 4 * k + 1) && Next(Next(i)) == Slot(s, 4 * k + 2);
    assert Next(Next(Next(i))) == Slot(s, 4 * k + 3);
  }

  /** A drain under way that started below BUFD_MAX. */
  ghost predicate OnRing(b: seq<int>, now: seq<int>, s: nat, rows: seq<seq<int>>, index: nat) {
    s < BUFD_MAX < |b| ==>
      && |rows| <= ROWS && index == Slot(s, 4 * |rows|) && Partway(b, now, s, 4 * |rows|)
      && forall k :: 0 <= k < |rows| ==> rows[k] == RowAt(b, s, k) && rows[k][0] != SENTINEL
  }

  lemma RoomForRow(b: seq<int>, now: seq<int>, s: nat, rows: seq<seq<int>>, index: nat)
    requires OnRing(b, now, s, rows, index) && s < BUFD_MAX < |b| == |now| && index <= BUFD_MAX && now[index] != SENTINEL
    ensures |rows| < ROWS && now[index] == b[index]
  {
  }

  lemma OnRingStep(b: seq<int>, now: seq<int>, after: seq<int>, s: nat, rows: seq<seq<int>>, index: nat, row: seq<int>, next: nat)
    requires OnRing(b, now, s, rows, index) && index <= BUFD_MAX < |b| == |now|
    requires now[index] != SENTINEL && TakesRow(now, after, index, row, next)
    ensures OnRing(b, after, s, rows + [row], next)
  {
    if s < BUFD_MAX {
      RoomForRow(b, now, s, rows, index);
      RowAdvances(b, now, after, s, |rows|, row, next);
      RowsGrow(b, s, rows, row);
    }
  }

  lemma RowsGrow(b: seq<int>, s: nat, rows: seq<seq<int>>, row: seq<int>)
    requires s < BUFD_MAX < |b| && |rows| < ROWS && row == RowAt(b, s, |rows|) && row[0] != SENTINEL
    requires forall k :: 0 <= k < |rows| ==> rows[k] == RowAt(b, s, k) && rows[k][0] != SENTINEL
    ensures forall k :: 0 <= k < |rows + [row]| ==> (rows + [row])[k] == RowAt(b, s, k) && (rows + [row])[k][0] != SENTINEL
  {
  }

  /** A drain under way that started at BUFD_MAX because all words below are sentinels. */
  ghost predicate OffRing(b: seq<int>, now: seq<int>, s: nat, rows: seq<seq<int>>, index: nat) {
    s == BUFD_MAX < |b| == |now| && AllBlank(b, BUFD_MAX) ==>
      && AllBlank(now, BUFD_MAX)
      && now == (if rows == [] then b else b[BUFD_MAX := SENTINEL])
      && if rows == [] then index == BUFD_MAX
         else index == 3 && rows == [[b[BUFD_MAX], SENTINEL, SENTINEL, SENTINEL]] && b[BUFD_MAX] != SENTINEL
  }

  lemma OffRingStep(b: seq<int>, now: seq<int>, after: seq<int>, s: nat, rows: seq<seq<int>>, index: nat, row: seq<int>, next: nat)
    requires OffRing(b, now, s, rows, index) && index <= BUFD_MAX < |b| == |now|
    requires now[index] != SENTINEL && TakesRow(now, after, index, row, next)
    ensures OffRing(b, after, s, rows + [row], next)
  {
    if s == BUFD_MAX && AllBlank(b, BUFD_MAX) {
      assert rows == [];
      assert after == b[BUFD_MAX := SENTINEL];
    }
  }

  /**
    The drain loop, from any start and any content.  Each round blanks at least one word that
    was not a sentinel, so it ends.
   */
  method DrainFrom(buf: array<int>, start: nat) returns (rows: seq<seq<int>>)
    requires start <= BUFD_MAX < buf.Length
    modifies buf
    ensures start < BUFD_MAX ==> PrintsFrom(old(buf[..]), start, rows)
    ensures start < BUFD_MAX ==> Partway(old(buf[..]), buf[..], start, 4 * |rows|)
    ensures start == BUFD_MAX && AllBlank(old(buf[..]), BUFD_MAX) ==>
      && rows == (if old(buf[start]) == SENTINEL then [] else [[old(buf[start]), SENTINEL, SENTINEL, SENTINEL]])
      && buf[..] == old(buf[..])[start := SENTINEL]
  {
    ghost var b := buf[..];
    var index: nat := start;
    rows := [];
    while buf[index] != SENTINEL
      invariant index <= BUFD_MAX
      invariant OnRing(b, buf[..], start, rows, index) && OffRing(b, buf[..], start, rows, index)
      decreases Count(buf[..])
    {
      ghost var now := buf[..];
      var row, next := TakeRow(buf, index);
      OnRingStep(b, now, buf[..], start, rows, index, row, next);
      OffRingStep(b, now, buf[..], start, rows, index, row, next);
      rows := rows + [row];
      index := next;
    }
    if start < BUFD_MAX && |rows| < ROWS {
      assert Rank(start, index) == 4 * |rows|;
    }
  }

  /** The whole program: search, then drain; it reports the number of rows. */
  method Drain(buf: array<int>) returns (rows: seq<seq<int>>, count: nat, ghost start: nat)
    requires buf.Length > BUFD_MAX
    modifies buf
    ensures count == |rows| && start <= BUFD_MAX && AllBlank(old(buf[..]), start)
    ensures start < BUFD_MAX ==> old(buf[start]) != SENTINEL && PrintsFrom(old(buf[..]), start, rows)
    ensures start < BUFD_MAX ==> Partway(old(buf[..]), buf[..], start, 4 * |rows|)
    ensures start == BUFD_MAX ==>
      && rows == (if old(buf[start]) == SENTINEL then [] else [[old(buf[start]), SENTINEL, SENTINEL, SENTINEL]])
      && buf[..] == old(buf[..])[start := SENTINEL]
  {
    var index := Search(buf);
    start := index;
    rows := DrainFrom(buf, index);
    count := |rows|;
  }

  // ---------------------------------------------------------------------------
  // Draining a session
  // ---------------------------------------------------------------------------

  function Least(a: nat, b: nat): nat {
    if a < b then a else b
  }

  /** The rows printed for a session: its samples in order, whole, up to the capacity of the ring. */
  function Printed(session: seq<Row>): (rows: seq<seq<int>>)
    ensures |rows| == Least(|session|, ROWS)
    ensures forall k :: 0 <= k < |rows| ==> rows[k] == Words(session[k])
  {
    seq(Least(|session|, ROWS), k requires 0 <= k < Least(|session|, ROWS) => Words(session[k]))
  }

  lemma WordsAt(vm: seq<int>, session: seq<Row>, k: nat)
    requires Holds(vm, session) && k < |session|
    ensures vm[4 * k..4 * k + 4] == [vm[4 * k], vm[4 * k + 1], vm[4 * k + 2], vm[4 * k + 3]] == Words(session[k])
  {
  }

  lemma PrintsAt(b: seq<int>, s: nat, rows: seq<seq<int>>, k: nat)
    requires s < BUFD_MAX <= |b| && PrintsFrom(b, s, rows) && k < |rows|
    ensures rows[k] == RowAt(b, s, k) && b[Slot(s, 4 * k)] != SENTINEL
  {
  }

  /** Whatever a drain of the buffer prints from its first sample is exactly the session. */
  lemma PrintsSession(vm: seq<int>, session: seq<Row>, start: nat, rows: seq<seq<int>>)
    requires Holds(vm, session) && session != [] && |vm| > BUFD_MAX
    requires start <= BUFD_MAX && AllBlank(vm, start) && (start < BUFD_MAX ==> PrintsFrom(vm, start, rows))
    ensures start == 0 && rows == Printed(session)
  {
    WordsAt(vm, session, 0);
    forall k | 0 <= k < Least(|rows|, |session|)
      ensures rows[k] == Words(session[k])
    {
      WordsAt(vm, session, k);
    }
    if |session| < |rows| {
      PrintsAt(vm, start, rows, |session|);
      assert false;
    }
    if |rows| < Least(|session|, ROWS) {
      WordsAt(vm, session, |rows|);
      assert false;
    }
  }

  /** The first `n` words blanked, all others as before. */
  function Blanked(b: seq<int>, n: nat): (r: seq<int>)
    requires n <= |b|
    ensures |r| == |b| && forall j :: 0 <= j < |b| ==> r[j] == if j < n then SENTINEL else b[j]
  {
    seq(n, _ => SENTINEL) + b[n..]
  }

  /**
    After every run of the module within its buffer in which the session has at least one
    sample, whatever the buffer held before, draining it prints exactly the first 12000 samples of that session, or
    all of them, in order and whole, reports their number, and blanks exactly the words printed.
   */
  method DrainAfterSession(buf: array<int>, ghost col: Column, ghost vm: seq<int>, ghost procs: map<int, Counters>, ghost es: seq<Event>)
    returns (rows: seq<seq<int>>, count: nat)
    requires |vm| == buf.Length > BUFD_MAX && !Run(vm, procs, es).overrun
    requires Trace(col, vm, procs, es).p.vm == buf[..] && Trace(col, vm, procs, es).session != []
    modifies buf
    ensures rows == Printed(Trace(col, vm, procs, es).session)
    ensures count == Least(|Trace(col, vm, procs, es).session|, ROWS)
    ensures buf[..] == Blanked(old(buf[..]), 4 * |rows|)
  {
    AlwaysSound(col, vm, procs, es);
    ghost var start;
    ghost var b := buf[..];
    rows, count, start := Drain(buf);
    PrintsSession(b, Trace(col, vm, procs, es).session, start, rows);
    assert forall j :: 0 <= j < 4 * |rows| ==> Rank(0, j) == j;
  }

  /** Each printed row starts with the time at which its work item ran. */
  lemma PrintedTimes(col: Column, vm: seq<int>, procs: map<int, Counters>, es: seq<Event>)
    ensures var rows, times := Printed(Trace(col, vm, procs, es).session), WorkTimes(vm, procs, es);
      |rows| == Least(|times|, ROWS) && forall k :: 0 <= k < |rows| ==> |rows[k]| == 4 && rows[k][0] == times[k]
  {
    SessionTimes(col, vm, procs, es);
  }

  /** The position of a column in a printed row. */
  function Position(col: Column): nat {
    match col
    case Minor => 1
    case Major => 2
    case Cpu => 3
  }

  /** The sum of a column over printed rows. */
  function PrintedSum(col: Column, rows: seq<seq<int>>): int
    requires forall k :: 0 <= k < |rows| ==> |rows[k]| == 4
  {
    if rows == [] then 0 else PrintedSum(col, rows[..|rows| - 1]) + rows[|rows| - 1][Position(col)]
  }

  lemma {:induction false} PrintedSumIsSession(col: Column, session: seq<Row>)
    requires |session| <= ROWS
    ensures PrintedSum(col, Printed(session)) == SessionSum(col, session)
  {
    if session != [] {
      var n := |session| - 1;
      PrintedSumIsSession(col, session[..n]);
      assert Printed(session)[..n] == Printed(session[..n]);
    }
  }

  /**
    Conservation reaches the printout: with at most 12000 samples in the session, what earlier
    sessions recorded, what the drain prints, what the counters still hold, what was carried
    off and what was lost add up to what was observed and what was counted again.
   */
  lemma PrintedCountsConserved(col: Column, vm: seq<int>, procs: map<int, Counters>, es: seq<Event>)
    requires |Trace(col, vm, procs, es).session| <= ROWS
    ensures var h := Trace(col, vm, procs, es);
      && h.books.earlier + PrintedSum(col, Printed(h.session)) + Residual(col, Pids(h.p.head), h.p.procs)
         + h.books.carried + h.books.lost == h.books.observed + h.books.recounted
      && (AliveRun(vm, procs, es) ==> h.books.lost == 0 && h.books.recounted == 0)
  {
    EverythingBooked(col, vm, procs, es);
    if AliveRun(vm, procs, es) {
      AliveThroughout(col, vm, procs, es);
    }
    SessionIsBooked(col, vm, procs, es);
    PrintedSumIsSession(col, Trace(col, vm, procs, es).session);
  }
}
