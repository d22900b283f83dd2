/**
  From time demand to deadlines: every job finishes within its period.

  Time is discrete.  An execution says how much work each task is handed at each tick and
  which task, if any, has the processor during the tick.  Jobs of one task may come at any
  ticks at least one period apart; the processor always goes to a waiting task of smallest
  period.  The level of a period `p` is the set of tasks whose period is at most `p`.
 */
module Deadlines {
  import opened Load
  import opened HyperbolicBound
  import opened TimeDemand

  /** Work handed to task `i` at tick `t`, and the task served during tick `t` (-1 for none). */
  datatype Execution = Execution(arrive: (nat, nat) -> nat, serve: nat -> int)

  /** The work of task `i` handed over before tick `t` and not yet done at tick `t`. */
  function Pending(x: Execution, i: nat, t: nat): int {
    if t == 0 then 0 else
      Pending(x, i, t - 1) + x.arrive(i, t - 1) - (if x.serve(t - 1) == i then 1 else 0)
  }

  /** The ticks before `t` in which task `i` was served. */
  function Served(x: Execution, i: nat, t: nat): nat {
    if t == 0 then 0 else Served(x, i, t - 1) + if x.serve(t - 1) == i then 1 else 0
  }

  /** What is pending is what arrived less what was served. */
  lemma {:induction false} PendingIsArrivedLessServed(x: Execution, i: nat, t: nat)
    ensures Pending(x, i, t) == Arrived(x, i, 0, t) - Served(x, i, t)
  {
    if t > 0 {
      PendingIsArrivedLessServed(x, i, t - 1);
    }
  }

  predicate Waiting(x: Execution, i: nat, t: nat) {
    Pending(x, i, t) + x.arrive(i, t) > 0
  }

  /** No job exceeds the claimed computation, and jobs of one task are at least a period apart. */
  ghost predicate Sporadic(cs: seq<Claim>, x: Execution) {
    && (forall i: nat, t: nat :: i < |cs| ==> x.arrive(i, t) <= cs[i].computation)
    && (forall i: nat, t: nat, u: nat ::
          i < |cs| && t < u && x.arrive(i, t) > 0 && x.arrive(i, u) > 0 ==> t + cs[i].period <= u)
  }

  /** The task served waits and no waiting task has a smaller period; the processor idles only if none waits. */
  ghost predicate ServedByRate(cs: seq<Claim>, x: Execution, t: nat) {
    var s := x.serve(t);
    && (forall j: nat :: j < |cs| && Waiting(x, j, t) ==> 0 <= s < |cs| && cs[s].period <= cs[j].period)
    && (0 <= s < |cs| ==> Waiting(x, s, t))
  }

  /** ... at every tick before the horizon `h`. */
  ghost predicate RateMonotonic(cs: seq<Claim>, x: Execution, h: nat) {
    forall t: nat :: t < h ==> ServedByRate(cs, x, t)
  }

  // ---------------------------------------------------------------------------
  // Sums over a level
  // ---------------------------------------------------------------------------

  /** The sum of `f` over the first `n` tasks whose period is at most `p`. */
  function LevelSum(cs: seq<Claim>, p: nat, n: nat, f: nat -> int): int
    requires n <= |cs|
  {
    if n == 0 then 0 else
      LevelSum(cs, p, n - 1, f) + (if cs[n - 1].period <= p then f(n - 1) else 0)
  }

  lemma {:induction false} LevelSumAdds(cs: seq<Claim>, p: nat, n: nat, f: nat -> int, g: nat -> int, h: nat -> int)
    requires n <= |cs| && forall i: nat :: i < n ==> f(i) == g(i) + h(i)
    ensures LevelSum(cs, p, n, f) == LevelSum(cs, p, n, g) + LevelSum(cs, p, n, h)
  {
    if n > 0 {
      LevelSumAdds(cs, p, n - 1, f, g, h);
    }
  }

  lemma {:induction false} LevelSumZero(cs: seq<Claim>, p: nat, n: nat, f: nat -> int)
    requires n <= |cs| && forall i: nat :: i < n ==> f(i) >= 0
    ensures LevelSum(cs, p, n, f) >= 0
    ensures LevelSum(cs, p, n, f) == 0 <==> forall i: nat :: i < n && cs[i].period <= p ==> f(i) == 0
  {
    if n > 0 {
      LevelSumZero(cs, p, n - 1, f);
    }
  }

  function Indicator(s: int): nat -> int {
    (i: nat) => if i == s then 1 else 0
  }

  lemma {:induction false} LevelSumIndicator(cs: seq<Claim>, p: nat, n: nat, s: int)
    requires n <= |cs|
    ensures LevelSum(cs, p, n, Indicator(s)) == if 0 <= s < n && cs[s].period <= p then 1 else 0
  {
    if n > 0 {
      LevelSumIndicator(cs, p, n - 1, s);
    }
  }

  // ---------------------------------------------------------------------------
  // The backlog of a level
  // ---------------------------------------------------------------------------

  function PendingAt(x: Execution, t: nat): nat -> int {
    (i: nat) => Pending(x, i, t)
  }

  function ArriveAt(x: Execution, t: nat): nat -> int {
    (i: nat) => x.arrive(i, t)
  }

  function WaitingAt(x: Execution, t: nat): nat -> int {
    (i: nat) => Pending(x, i, t) + x.arrive(i, t)
  }

  function Backlog(cs: seq<Claim>, p: nat, x: Execution, t: nat): int {
    LevelSum(cs, p, |cs|, PendingAt(x, t))
  }

  function Arriving(cs: seq<Claim>, p: nat, x: Execution, t: nat): int {
    LevelSum(cs, p, |cs|, ArriveAt(x, t))
  }

  lemma {:induction false} PendingNonNegative(cs: seq<Claim>, x: Execution, h: nat, i: nat, t: nat)
    requires RateMonotonic(cs, x, h) && i < |cs| && t <= h
    ensures Pending(x, i, t) >= 0
  {
    if t > 0 {
      PendingNonNegative(cs, x, h, i, t - 1);
      assert ServedByRate(cs, x, t - 1);
    }
  }

  /** A level works off one unit per tick for as long as it has any. */
  lemma BacklogStep(cs: seq<Claim>, p: nat, x: Execution, h: nat, t: nat)
    requires RateMonotonic(cs, x, h) && t < h
    ensures var b := Backlog(cs, p, x, t) + Arriving(cs, p, x, t);
      b >= 0 && Backlog(cs, p, x, t + 1) == if b > 0 then b - 1 else 0
  {
    var n, s := |cs|, x.serve(t);
    assert ServedByRate(cs, x, t);
    LevelSumAdds(cs, p, n, WaitingAt(x, t), PendingAt(x, t), ArriveAt(x, t));
    LevelSumAdds(cs, p, n, WaitingAt(x, t), PendingAt(x, t + 1), Indicator(s));
    LevelSumIndicator(cs, p, n, s);
    forall i: nat | i < n
      ensures WaitingAt(x, t)(i) >= 0
    {
      PendingNonNegative(cs, x, h, i, t);
    }
    LevelSumZero(cs, p, n, WaitingAt(x, t));
    if LevelSum(cs, p, n, WaitingAt(x, t)) > 0 {
      var i: nat :| i < n && cs[i].period <= p && WaitingAt(x, t)(i) != 0;
      assert Waiting(x, i, t);
    } else if 0 <= s < n {
      assert Waiting(x, s, t);
      assert WaitingAt(x, t)(s) != 0;
    }
  }

  /** Work handed to task `i` during the `len` ticks from `t` on. */
  function Arrived(x: Execution, i: nat, t: nat, len: nat): nat {
    if len == 0 then 0 else Arrived(x, i, t, len - 1) + x.arrive(i, t + len - 1)
  }

  function ArrivedIn(x: Execution, t: nat, len: nat): nat -> int {
    (i: nat) => Arrived(x, i, t, len)
  }

  lemma {:induction false} NoArrivals(x: Execution, i: nat, t: nat, short: nat, len: nat)
    requires short <= len && forall u: nat :: t + short <= u < t + len ==> x.arrive(i, u) == 0
    ensures Arrived(x, i, t, len) == Arrived(x, i, t, short)
    decreases len
  {
    if short < len {
      NoArrivals(x, i, t, short, len - 1);
    }
  }

  /** Sporadic jobs never exceed what periodic ones, all released together, would bring. */
  lemma {:induction false} ArrivedBound(cs: seq<Claim>, x: Execution, i: nat, t: nat, len: nat)
    requires Periodic(cs) && Sporadic(cs, x) && i < |cs|
    ensures Arrived(x, i, t, len) <= ReleasedWork(cs[i], len)
    decreases len
  {
    if len > 0 {
      var c, u := cs[i], t + len - 1;
      if x.arrive(i, u) == 0 {
        ArrivedBound(cs, x, i, t, len - 1);
        MoreReleases(c, len);
      } else {
        var short := if len >= c.period then len - c.period else 0;
        ArrivedBound(cs, x, i, t, short);
        NoArrivals(x, i, t, short, len - 1);
        OneMoreRelease(c, len);
      }
    }
  }

  lemma ReleasesCover(t: nat, d: nat)
    requires d > 0
    ensures t <= Releases(t, d) * d
  {
  }

  lemma MoreReleases(c: Claim, len: nat)
    requires c.period > 0 && len > 0
    ensures ReleasedWork(c, len - 1) <= ReleasedWork(c, len)
  {
    ReleasesCover(len, c.period);
    FewReleases(len - 1, c.period, Releases(len, c.period));
    MulLe(Releases(len - 1, c.period), Releases(len, c.period), c.computation);
  }

  lemma OneMoreRelease(c: Claim, len: nat)
    requires c.period > 0 && len > 0
    ensures ReleasedWork(c, if len >= c.period then len - c.period else 0) + c.computation <= ReleasedWork(c, len)
  {
    var d, w, many := c.period, c.computation, Releases(len, c.period);
    var short := if len >= d then len - d else 0;
    ReleasesCover(len, d);
    assert many >= 1;
    assert (many - 1) * d == many * d - d;
    MulLe(0, many - 1, d);
    FewReleases(short, d, many - 1);
    MulLe(Releases(short, d), many - 1, w);
    assert (many - 1) * w == many * w - w;
  }

  /** The tasks of a level, as a list of their own. */
  function Level(cs: seq<Claim>, p: nat): (ls: seq<Claim>)
    requires Periodic(cs)
    ensures Within(ls, p)
  {
    if cs == [] then [] else
      var c := cs[|cs| - 1];
      Level(cs[..|cs| - 1], p) + if c.period <= p then [c] else []
  }

  lemma {:induction false} LevelShrinks(cs: seq<Claim>, p: nat)
    requires Periodic(cs)
    ensures Hyperbolic(Level(cs, p)) <= Hyperbolic(cs)
    ensures Hyperbolic(cs) >= 1.0
  {
    ProductAtLeastOne(Shares(cs));
    if cs != [] {
      var n := |cs| - 1;
      LevelShrinks(cs[..n], p);
      ProductSnoc(Shares(cs[..n]), Share(cs[n]));
      assert Shares(cs) == Shares(cs[..n]) + [Share(cs[n])];
      if cs[n].period <= p {
        ProductSnoc(Shares(Level(cs[..n], p)), Share(cs[n]));
        assert Shares(Level(cs, p)) == Shares(Level(cs[..n], p)) + [Share(cs[n])];
        ScaleMonotone(Hyperbolic(Level(cs[..n], p)), Hyperbolic(cs[..n]), Share(cs[n]));
      } else {
        assert Level(cs, p) == Level(cs[..n], p);
        Grow(Hyperbolic(cs[..n]), Share(cs[n]));
      }
    }
  }

  lemma ScaleMonotone(a: real, b: real, u: real)
    requires a <= b && u >= 0.0
    ensures Scale(a, u) <= Scale(b, u)
  {
  }

  lemma LevelSnoc(cs: seq<Claim>, p: nat, n: nat)
    requires Periodic(cs) && 0 < n <= |cs|
    ensures Level(cs[..n], p) == if cs[n - 1].period <= p then Level(cs[..n - 1], p) + [cs[n - 1]] else Level(cs[..n - 1], p)
  {
    assert cs[..n][..n - 1] == cs[..n - 1];
  }

  lemma DemandSnoc(ls: seq<Claim>, c: Claim, t: nat)
    requires Periodic(ls) && c.period > 0
    ensures Demand(ls + [c], t) == Demand(ls, t) + ReleasedWork(c, t)
  {
  }

  lemma {:induction false} ArrivedWithinDemand(cs: seq<Claim>, p: nat, x: Execution, t: nat, len: nat, n: nat)
    requires Periodic(cs) && Sporadic(cs, x) && n <= |cs|
    ensures LevelSum(cs, p, n, ArrivedIn(x, t, len)) <= Demand(Level(cs[..n], p), len)
  {
    if n > 0 {
      ArrivedWithinDemand(cs, p, x, t, len, n - 1);
      LevelSnoc(cs, p, n);
      ArrivedBound(cs, x, n - 1, t, len);
      DemandSnoc(Level(cs[..n - 1], p), cs[n - 1], len);
    }
  }

  // ---------------------------------------------------------------------------
  // Busy intervals
  // ---------------------------------------------------------------------------

  /** While a level stays busy after an idle instant, its backlog is what arrived less the time gone by. */
  lemma {:induction false} BusyInterval(cs: seq<Claim>, p: nat, x: Execution, h: nat, t: nat, len: nat)
    requires RateMonotonic(cs, x, h) && t + len <= h && Backlog(cs, p, x, t) == 0
    requires forall k: nat :: t < k <= t + len ==> Backlog(cs, p, x, k) > 0
    ensures Backlog(cs, p, x, t + len) == LevelSum(cs, p, |cs|, ArrivedIn(x, t, len)) - len
  {
    if len == 0 {
      LevelSumZero(cs, p, |cs|, ArrivedIn(x, t, 0));
    } else {
      BusyInterval(cs, p, x, h, t, len - 1);
      BacklogStep(cs, p, x, h, t + len - 1);
      LevelSumAdds(cs, p, |cs|, ArrivedIn(x, t, len), ArrivedIn(x, t, len - 1), ArriveAt(x, t + len - 1));
    }
  }

  /** Idle instants of a level are at most `p` apart. */
  lemma NextIdle(cs: seq<Claim>, p: nat, x: Execution, h: nat, t: nat) returns (k: nat)
    requires p > 0 && Periodic(cs) && Hyperbolic(cs) <= 2.0
    requires Sporadic(cs, x) && RateMonotonic(cs, x, h) && t + p <= h && Backlog(cs, p, x, t) == 0
    ensures t < k <= t + p && Backlog(cs, p, x, k) == 0
  {
    k := t + p;
    LevelShrinks(cs, p);
    assert cs[..|cs|] == cs;
    var len := DemandIsMet(Level(cs, p), p);
    if forall k: nat :: t < k <= t + len ==> Backlog(cs, p, x, k) > 0 {
      BusyInterval(cs, p, x, h, t, len);
      ArrivedWithinDemand(cs, p, x, t, len, |cs|);
      assert false;
    } else {
      k :| t < k <= t + len && Backlog(cs, p, x, k) <= 0;
      BacklogStep(cs, p, x, h, k - 1);
    }
  }

  lemma {:induction false} LastIdle(cs: seq<Claim>, p: nat, x: Execution, r: nat) returns (t: nat)
    ensures t <= r && Backlog(cs, p, x, t) == 0
    ensures forall k: nat :: t < k <= r ==> Backlog(cs, p, x, k) != 0
  {
    t := r;
    if r == 0 {
      LevelSumZero(cs, p, |cs|, PendingAt(x, 0));
    } else if Backlog(cs, p, x, r) != 0 {
      t := LastIdle(cs, p, x, r - 1);
    }
  }

  /**
    Under the hyperbolic test, whatever task `i` was handed up to and including tick `r`
    is done at some instant `f` no later than one period after `r`.
   */
  lemma DeadlineMet(cs: seq<Claim>, x: Execution, h: nat, i: nat, r: nat) returns (f: nat)
    requires Periodic(cs) && Hyperbolic(cs) <= 2.0
    requires Sporadic(cs, x) && RateMonotonic(cs, x, h) && i < |cs| && r + cs[i].period <= h
    ensures r < f <= r + cs[i].period && Pending(x, i, f) == 0
  {
    var p := cs[i].period;
    var t := LastIdle(cs, p, x, r);
    f := NextIdle(cs, p, x, h, t);
    forall j: nat | j < |cs|
      ensures PendingAt(x, f)(j) >= 0
    {
      PendingNonNegative(cs, x, h, j, f);
    }
    LevelSumZero(cs, p, |cs|, PendingAt(x, f));
    assert PendingAt(x, f)(i) == 0;
  }
}
