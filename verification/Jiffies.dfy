/**
  The kernel's time against milliseconds.

  The module adds `period * USER_HZ / 1000` to `jiffies`, which advances `HZ` times a second;
  USER_HZ is 100.  In the results about milliseconds a jiffy lasts a whole number of them.
 */
module Jiffies {
  import opened Admission
  import opened Scheduler

  /** The sum of `n` times `x`; in particular the millisecond at which jiffy `n` starts, if a jiffy lasts `x`. */
  function Times(n: nat, x: nat): (y: nat)
    ensures n > 0 ==> y >= x
  {
    if n == 0 then 0 else Times(n - 1, x) + x
  }

  lemma {:induction false} TimesIs(n: nat, x: nat)
    ensures Times(n, x) == n * x
  {
    if n > 0 {
      TimesIs(n - 1, x);
      assert n * x == (n - 1) * x + x;
    }
  }

  lemma {:induction false} TimesAdd(a: nat, b: nat, x: nat)
    ensures Times(a + b, x) == Times(a, x) + Times(b, x)
  {
    if b > 0 {
      TimesAdd(a, b - 1, x);
    }
  }

  lemma TimesMonotone(a: nat, b: nat, x: nat)
    requires a <= b
    ensures Times(a, x) <= Times(b, x)
    ensures a < b ==> Times(a, x) + x <= Times(b, x)
  {
    TimesAdd(a, b - a, x);
  }

  /** A moment is the start of its jiffy and what has passed of it. */
  lemma WholeAndRest(m: nat, j: nat)
    requires j > 0
    ensures m == Times(m / j, j) + m % j
  {
    TimesIs(m / j, j);
    assert m == m / j * j + m % j;
  }

  lemma BeforeJiffy(m: nat, j: nat, n: nat)
    requires j > 0
    ensures m / j < n <==> m < Times(n, j)
  {
    WholeAndRest(m, j);
    if m / j < n {
      TimesMonotone(m / j, n, j);
    } else {
      TimesMonotone(n, m / j, j);
    }
  }

  /** Up to the wrap-around, longer periods have intervals at least as long. */
  lemma IntervalMonotone(p: nat, q: nat)
    requires p <= q && q * USER_HZ < UINT
    ensures Interval(p) <= Interval(q)
  {
  }

  /**
    At `hz` jiffies a second the interval lasts 1000 * Interval(p) / hz milliseconds.  Where
    the kernel is at least as fast as USER_HZ that is never more than the declared period, and
    as much if and only if the kernel has USER_HZ itself and the period is a multiple of ten
    milliseconds that does not wrap.
   */
  lemma IntervalIsExactIff(hz: nat, p: nat)
    requires hz >= USER_HZ && p > 0
    ensures 1000 * Interval(p) <= hz * p
    ensures 1000 * Interval(p) == hz * p <==> hz == USER_HZ && p % 10 == 0 && p * USER_HZ < UINT
  {
    assert hz * p == USER_HZ * p + (hz - USER_HZ) * p;
    if hz > USER_HZ {
      assert (hz - USER_HZ) * p >= 1;
    }
    if p * USER_HZ < UINT {
      assert Interval(p) == p / 10;
    } else {
      WrappedInterval(p);
    }
  }

  lemma WrappedInterval(p: nat)
    requires p * USER_HZ >= UINT
    ensures 10 * Interval(p) < p
  {
    assert UInt(Machine, p * USER_HZ) < UINT;
    assert Interval(p) * 1000 <= UInt(Machine, p * USER_HZ);
  }
}
