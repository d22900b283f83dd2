/**
  Admission control: one running fraction stands for the total utilization.

  The source computes with `unsigned int` and `unsigned long`.  Every operation takes the
  arithmetic as a parameter, so that the machine's wrap-around and the unbounded arithmetic
  it is meant to imitate share one definition.
 */
module Admission {
  import opened Load
  import opened HyperbolicBound

  datatype Arith = Machine | Ideal

  const UINT: nat := 0x1_0000_0000
  const ULONG: nat := 0x1_0000_0000_0000_0000

  function UInt(a: Arith, x: nat): nat {
    if a.Machine? then x % UINT else x
  }

  function ULong(a: Arith, x: nat): nat {
    if a.Machine? then x % ULONG else x
  }

  datatype Ledger = Ledger(numerator: nat, denominator: nat)

  datatype Verdict = Verdict(accepted: bool, ledger: Ledger)

  /** Registration: accept and add the claim if the limit allows it. */
  function Admit(a: Arith, l: Ledger, c: Claim): Verdict {
    if l.numerator == 0 then
      if UInt(a, c.computation * 1000) <= UInt(a, 693 * c.period)
      then Verdict(true, Ledger(c.computation, c.period))
      else Verdict(false, l)
    else
      var den := ULong(a, l.denominator * c.period);
      var num := ULong(a, ULong(a, l.numerator * c.period) + ULong(a, c.computation * l.denominator));
      if ULong(a, num * 1000) <= ULong(a, 693 * den)
      then Verdict(true, Ledger(num, den))
      else Verdict(false, l)
  }

  /** Deregistration: subtract the claim, or fall to zero. */
  function Retire(a: Arith, l: Ledger, c: Claim): Ledger {
    var held, freed := ULong(a, l.numerator * c.period), ULong(a, c.computation * l.denominator);
    if held <= freed then l.(numerator := 0)
    else Ledger(held - freed, ULong(a, l.denominator * c.period))
  }

  /** `num / den` is the real number `u`. */
  ghost predicate Ratio(num: int, den: int, u: real) {
    den > 0 && num as real == u * den as real
  }

  /** The fraction is the exact total of the listed claims. */
  ghost predicate Exact(l: Ledger, cs: seq<Claim>) {
    && Periodic(cs)
    && if l.numerator == 0 then Total(cs) == 0.0 else Ratio(l.numerator, l.denominator, Total(cs))
  }

  // ---------------------------------------------------------------------------
  // Unbounded arithmetic is exact
  // ---------------------------------------------------------------------------

  lemma ShareRatio(c: Claim)
    requires c.period > 0
    ensures Ratio(c.computation, c.period, Share(c))
  {
    ShareTimesPeriod(c);
  }

  lemma RatioScale(num: int, den: int, u: real, k: int)
    requires Ratio(num, den, u) && k > 0
    ensures Ratio(num * k, den * k, u)
  {
    assert (num * k) as real == num as real * k as real;
    assert (den * k) as real == den as real * k as real;
    assert u * (den as real * k as real) == u * den as real * k as real;
    assert den * k > 0;
  }

  lemma RatioSum(n: int, m: int, den: int, u: real, v: real)
    requires Ratio(n, den, u) && Ratio(m, den, v)
    ensures Ratio(n + m, den, u + v) && Ratio(n - m, den, u - v)
    ensures n <= m <==> u <= v
  {
    var d := den as real;
    assert (u + v) * d == u * d + v * d;
    assert (u - v) * d == u * d - v * d;
    RatioSign(u - v, d);
  }

  lemma RatioSign(u: real, d: real)
    requires d > 0.0
    ensures u <= 0.0 <==> u * d <= 0.0
  {
    if u > 0.0 {
      assert u * d > 0.0;
    } else {
      assert -u * d >= 0.0;
    }
  }

  /** Cross-multiplication brings two fractions over one denominator. */
  lemma CrossMultiply(num: int, den: int, u: real, c: int, p: int, v: real)
    requires Ratio(num, den, u) && Ratio(c, p, v)
    ensures Ratio(num * p + c * den, den * p, u + v)
    ensures Ratio(num * p - c * den, den * p, u - v)
    ensures num * p <= c * den <==> u <= v
  {
    RatioScale(num, den, u, p);
    RatioScale(c, p, v, den);
    assert p * den == den * p;
    RatioSum(num * p, c * den, den * p, u, v);
  }

  lemma CompareLimit(num: int, den: int, u: real)
    requires Ratio(num, den, u)
    ensures num * 1000 <= 693 * den <==> u <= LIMIT
  {
    RatioScale(num, den, u, 1000);
    assert LIMIT * 1000.0 == 693.0;
    assert Ratio(693 * den, den * 1000, LIMIT);
    RatioSum(num * 1000, 693 * den, den * 1000, u, LIMIT);
  }

  lemma IdealAdmit(l: Ledger, cs: seq<Claim>, c: Claim)
    requires Exact(l, cs) && c.period > 0
    ensures var v := Admit(Ideal, l, c);
      && (v.accepted <==> Total(cs) + Share(c) <= LIMIT)
      && Exact(v.ledger, if v.accepted then cs + [c] else cs)
  {
    TotalAppend(cs, c);
    ShareRatio(c);
    if l.numerator == 0 {
      CompareLimit(c.computation, c.period, Share(c));
      ZeroRatio(c.computation, c.period, Share(c));
    } else {
      var num, den := l.numerator * c.period + c.computation * l.denominator, l.denominator * c.period;
      CrossMultiply(l.numerator, l.denominator, Total(cs), c.computation, c.period, Share(c));
      CompareLimit(num, den, Total(cs) + Share(c));
      SumPositive(l.numerator, c.period, c.computation * l.denominator);
    }
  }

  lemma ZeroRatio(num: int, den: int, u: real)
    requires Ratio(num, den, u)
    ensures num == 0 <==> u == 0.0
    ensures num > 0 <==> u > 0.0
  {
    RatioSign(u, den as real);
    RatioSign(-u, den as real);
  }

  lemma SumPositive(a: nat, b: nat, c: nat)
    requires a > 0 && b > 0
    ensures a * b + c > 0
  {
    assert a * b > 0;
  }

  lemma IdealRetire(l: Ledger, cs: seq<Claim>, i: nat)
    requires Exact(l, cs) && i < |cs|
    ensures var m := Retire(Ideal, l, cs[i]);
      && Exact(m, Without(cs, i))
      && (m.numerator == 0 <==> Total(Without(cs, i)) == 0.0)
  {
    var c := cs[i];
    TotalWithout(cs, i);
    ShareRatio(c);
    if l.numerator > 0 {
      var held, freed := l.numerator * c.period, c.computation * l.denominator;
      CrossMultiply(l.numerator, l.denominator, Total(cs), c.computation, c.period, Share(c));
      ZeroRatio(held - freed, l.denominator * c.period, Total(cs) - Share(c));
    }
  }

  // ---------------------------------------------------------------------------
  // Machine arithmetic
  // ---------------------------------------------------------------------------

  function IntPow(b: nat, n: nat): nat {
    if n == 0 then 1 else b * IntPow(b, n - 1)
  }

  /** The denominator is a product of at most `d` periods, none above `b`, and the fraction is at most one. */
  ghost predicate Narrow(l: Ledger, b: nat, d: nat) {
    l.numerator > 0 ==> 0 < l.denominator <= IntPow(b, d) && l.numerator <= l.denominator
  }

  /** How many factors the denominator has after a call: none once the numerator is zero. */
  function Factors(before: Ledger, after: Ledger, d: nat): nat {
    if after.numerator == 0 then 0
    else if before.numerator == 0 then 1
    else if before == after then d
    else d + 1
  }

  ghost predicate Roomy(b: nat, d: nat) {
    1000 * b < UINT && 2000 * IntPow(b, d + 1) < ULONG
  }

  lemma ProductAtMost(x: nat, y: nat, b: nat, m: nat)
    requires x <= b && y <= m
    ensures x * y <= b * m
  {
    assert x * y <= b * y;
    assert b * y <= b * m;
  }

  /** None of the products of a call exceeds one more factor of the bound. */
  lemma ProductsFit(l: Ledger, c: Claim, b: nat, d: nat)
    requires Narrow(l, b, d) && l.numerator > 0 && 0 < c.period <= b && c.computation <= b
    ensures 0 < l.denominator * c.period <= IntPow(b, d + 1)
    ensures 0 < l.numerator * c.period <= l.denominator * c.period
    ensures c.computation * l.denominator <= IntPow(b, d + 1)
  {
    var m := IntPow(b, d);
    ProductAtMost(c.period, l.denominator, b, m);
    ProductAtMost(c.computation, l.denominator, b, m);
    ProductAtMost(l.numerator, c.period, l.denominator, c.period);
    SumPositive(l.numerator, c.period, 0);
  }

  /** With room for one more factor, the machine decides and stores what unbounded arithmetic would. */
  lemma AdmitRefines(l: Ledger, c: Claim, b: nat, d: nat)
    requires Narrow(l, b, d) && Roomy(b, d) && 0 < c.period <= b && c.computation <= b
    ensures var v := Admit(Machine, l, c);
      v == Admit(Ideal, l, c) && Narrow(v.ledger, b, Factors(l, v.ledger, d))
  {
    if l.numerator == 0 {
      AdmitFirstRefines(l, c, b);
    } else {
      ProductsFit(l, c, b, d);
      AdmitFits(l, c, IntPow(b, d + 1));
      AdmitNarrow(l, c, b, d);
    }
  }

  lemma AdmitFirstRefines(l: Ledger, c: Claim, b: nat)
    requires l.numerator == 0 && 1000 * b < UINT && 0 < c.period <= b && c.computation <= b
    ensures Admit(Machine, l, c) == Admit(Ideal, l, c)
    ensures Narrow(Admit(Ideal, l, c).ledger, b, 1)
  {
    assert IntPow(b, 1) == b * IntPow(b, 0) == b;
  }

  lemma AdmitNarrow(l: Ledger, c: Claim, b: nat, d: nat)
    requires Narrow(l, b, d) && l.numerator > 0
    requires 0 < l.denominator * c.period <= IntPow(b, d + 1)
    ensures var v := Admit(Ideal, l, c);
      Narrow(v.ledger, b, Factors(l, v.ledger, d))
  {
  }

  lemma AdmitFits(l: Ledger, c: Claim, m: nat)
    requires l.numerator > 0 && 2000 * m < ULONG
    requires l.denominator * c.period <= m && c.computation * l.denominator <= m
    requires l.numerator * c.period <= l.denominator * c.period
    ensures Admit(Machine, l, c) == Admit(Ideal, l, c)
  {
    var n, f, den := l.numerator * c.period, c.computation * l.denominator, l.denominator * c.period;
    Unwrapped(n);
    Unwrapped(f);
    Unwrapped(den);
    Unwrapped(n + f);
    Unwrapped((n + f) * 1000);
    Unwrapped(693 * den);
  }

  lemma Unwrapped(x: nat)
    requires x < ULONG
    ensures ULong(Machine, x) == x
  {
  }

  lemma RetireRefines(l: Ledger, c: Claim, b: nat, d: nat)
    requires Narrow(l, b, d) && Roomy(b, d) && 0 < c.period <= b && c.computation <= b
    ensures var m := Retire(Machine, l, c);
      m == Retire(Ideal, l, c) && Narrow(m, b, Factors(l, m, d))
  {
    if l.numerator > 0 {
      ProductsFit(l, c, b, d);
      RetireFits(l, c, IntPow(b, d + 1));
    }
  }

  lemma RetireFits(l: Ledger, c: Claim, m: nat)
    requires l.denominator * c.period <= m < ULONG && c.computation * l.denominator <= m
    requires l.numerator * c.period <= l.denominator * c.period
    ensures Retire(Machine, l, c) == Retire(Ideal, l, c)
    ensures Retire(Ideal, l, c).numerator <= l.numerator * c.period
  {
    Unwrapped(l.numerator * c.period);
    Unwrapped(c.computation * l.denominator);
    Unwrapped(l.denominator * c.period);
  }

  // ---------------------------------------------------------------------------
  // The fraction is exact in both arithmetics
  // ---------------------------------------------------------------------------

  /** The arithmetic does not wrap in a call with claim `c`: it is unbounded, or it has room for one more factor. */
  ghost predicate Faithful(a: Arith, l: Ledger, c: Claim, b: nat, d: nat) {
    a.Ideal? || (Narrow(l, b, d) && Roomy(b, d) && c.period <= b && c.computation <= b)
  }

  /**
    The decision depends on the listed claims alone: a claim is accepted exactly when the
    true total stays within the limit, and the fraction stays exact.
   */
  lemma AdmitIsExact(a: Arith, l: Ledger, cs: seq<Claim>, c: Claim, b: nat, d: nat)
    requires Exact(l, cs) && c.period > 0 && Faithful(a, l, c, b, d)
    ensures var v := Admit(a, l, c);
      && (v.accepted <==> Total(cs) + Share(c) <= LIMIT)
      && Exact(v.ledger, if v.accepted then cs + [c] else cs)
  {
    IdealAdmit(l, cs, c);
    if a.Machine? {
      AdmitRefines(l, c, b, d);
    }
  }

  /**
    Removal is exact too, and the clamp to zero fires only when nothing remains to be
    accounted for.
   */
  lemma RetireIsExact(a: Arith, l: Ledger, cs: seq<Claim>, i: nat, b: nat, d: nat)
    requires Exact(l, cs) && i < |cs| && Faithful(a, l, cs[i], b, d)
    ensures var m := Retire(a, l, cs[i]);
      && Exact(m, Without(cs, i))
      && (m.numerator == 0 <==> Total(Without(cs, i)) == 0.0)
  {
    IdealRetire(l, cs, i);
    if a.Machine? {
      RetireRefines(l, cs[i], b, d);
    }
  }

  // ---------------------------------------------------------------------------
  // How the load is forgotten
  // ---------------------------------------------------------------------------

  /** Without wrap-around, an accepted claim leaves a loaded fraction loaded if and only if its period is positive. */
  lemma LoadSurvivesIff(a: Arith, l: Ledger, c: Claim, b: nat, d: nat)
    requires l.numerator > 0 && l.denominator > 0 && Faithful(a, l, c, b, d) && Admit(a, l, c).accepted
    ensures Admit(a, l, c).ledger.numerator > 0 <==> c.period > 0
  {
    if c.period > 0 {
      if a.Machine? {
        AdmitRefines(l, c, b, d);
      }
      PositivePeriodSum(l, c);
    } else {
      if a.Machine? {
        ProductAtMost(c.computation, l.denominator, b, IntPow(b, d));
      }
      ZeroPeriodSum(a, l, c);
    }
  }

  lemma PositivePeriodSum(l: Ledger, c: Claim)
    requires l.numerator > 0 && c.period > 0
    ensures Admit(Ideal, l, c).ledger.numerator > 0
  {
    SumPositive(l.numerator, c.period, c.computation * l.denominator);
  }

  lemma ZeroPeriodSum(a: Arith, l: Ledger, c: Claim)
    requires l.numerator > 0 && c.period == 0 && Admit(a, l, c).accepted
    requires a.Machine? ==> 2000 * (c.computation * l.denominator) < ULONG
    ensures Admit(a, l, c).ledger.numerator == 0
  {
    var f := c.computation * l.denominator;
    assert l.denominator * 0 == 0 && l.numerator * 0 == 0;
    assert ULong(a, 0) == 0;
    if a.Machine? {
      Unwrapped(f);
      Unwrapped(f * 1000);
    }
  }

  /** A claim of (0, 0) is accepted, erases the fraction, and lets the limit be exceeded. */
  lemma ZeroPeriodForgets(a: Arith)
    ensures var full := Admit(a, Ledger(0, 0), Claim(1000, 693));
      var gone := Admit(a, full.ledger, Claim(0, 0));
      var again := Admit(a, gone.ledger, Claim(1000, 693));
      && full.accepted && gone.accepted && again.accepted
      && Total([Claim(1000, 693), Claim(1000, 693)]) > LIMIT
  {
    TwiceTooMuch();
  }

  lemma TwiceTooMuch()
    ensures Total([Claim(1000, 693), Claim(1000, 693)]) > LIMIT
  {
    var c := Claim(1000, 693);
    assert [c] == [] + [c] && [c, c] == [c] + [c];
    TotalAppend([], c);
    TotalAppend([c], c);
  }

  /** With wrap-around positive periods erase the fraction too: 2^16 * 2^20 * 2^30 is 0 in 64 bits. */
  lemma PositivePeriodsForget()
    ensures var first := Admit(Machine, Ledger(0, 0), Claim(65536, 32768));
      var second := Admit(Machine, first.ledger, Claim(1048576, 0));
      var third := Admit(Machine, second.ledger, Claim(1073741824, 0));
      && first.accepted && second.accepted && third.accepted
      && third.ledger == Ledger(0, 0)
      && Admit(Machine, third.ledger, Claim(1000, 693)).accepted
      && Share(Claim(65536, 32768)) + Share(Claim(1000, 693)) > LIMIT
  {
    HalfIsAdmitted();
    HalfIsScaled();
    HalfIsForgotten();
    assert Admit(Machine, Ledger(0, 0), Claim(1000, 693)).accepted;
    assert Share(Claim(65536, 32768)) == 0.5 && Share(Claim(1000, 693)) == 0.693;
  }

  lemma HalfIsAdmitted()
    ensures Admit(Machine, Ledger(0, 0), Claim(65536, 32768)) == Verdict(true, Ledger(32768, 65536))
  {
  }

  lemma HalfIsScaled()
    ensures Admit(Machine, Ledger(32768, 65536), Claim(1048576, 0)) == Verdict(true, Ledger(34359738368, 68719476736))
  {
  }

  lemma HalfIsForgotten()
    ensures Admit(Machine, Ledger(34359738368, 68719476736), Claim(1073741824, 0)) == Verdict(true, Ledger(0, 0))
  {
    assert ULong(Machine, 68719476736 * 1073741824) == 0 && ULong(Machine, 34359738368 * 1073741824) == 0;
  }

  /** With wrap-around a period of zero can leave a load, over a denominator of zero. */
  lemma ZeroPeriodKeepsALoad()
    ensures var first := Admit(Machine, Ledger(0, 0), Claim(1073741824, 1));
      var second := Admit(Machine, first.ledger, Claim(0, 2147483648));
      first.accepted && second.accepted && second.ledger == Ledger(0x2000_0000_0000_0000, 0)
  {
  }

  /** The limit itself is lost to wrap-around: 1000 * 4294968 is 704 in 32 bits. */
  lemma WrapAdmitsOverload()
    ensures Admit(Machine, Ledger(0, 0), Claim(2, 4294968)).accepted
    ensures !Admit(Ideal, Ledger(0, 0), Claim(2, 4294968)).accepted
    ensures Share(Claim(2, 4294968)) > 2000000.0 * LIMIT
  {
  }

  /**
    The 32-bit comparison of the first registration lets no overload in, whatever the period,
    if and only if the computation times 1000 does not wrap.
   */
  lemma NoOverloadIff(d: nat, w: nat)
    requires w < UINT
    ensures (forall p: nat :: p < UINT && Admit(Machine, Ledger(0, d), Claim(p, w)).accepted ==> w * 1000 <= 693 * p)
      <==> 1000 * w < UINT
  {
    if 1000 * w < UINT {
      forall p: nat | p < UINT && Admit(Machine, Ledger(0, d), Claim(p, w)).accepted
        ensures w * 1000 <= 693 * p
      {
        Wrapped(693 * p);
      }
    } else {
      OverloadFits(d, w);
    }
  }

  lemma Wrapped(x: nat)
    ensures UInt(Machine, x) <= x
  {
  }

  /** The longest period whose product with 693 does not wrap admits every computation whose product with 1000 does. */
  const WIDEST: nat := 6197644

  lemma OverloadFits(d: nat, w: nat)
    requires 1000 * w >= UINT
    ensures Admit(Machine, Ledger(0, d), Claim(WIDEST, w)).accepted && w * 1000 > 693 * WIDEST
  {
    assert UInt(Machine, 693 * WIDEST) == UINT - 4;
    MultipleOfEight(w);
  }

  lemma MultipleOfEight(w: nat)
    ensures UInt(Machine, w * 1000) <= UINT - 8
  {
    var q, r := 125 * w / 0x2000_0000, 125 * w % 0x2000_0000;
    assert 125 * w == q * 0x2000_0000 + r;
    Remainder(w * 1000, q, 8 * r);
  }

  lemma Remainder(x: nat, q: nat, r: nat)
    requires x == q * UINT + r && r < UINT
    ensures UInt(Machine, x) == r
  {
  }

  /** For all claims up to `b`, the first registration is the ideal one if and only if `b` times 1000 does not wrap. */
  lemma FirstIsIdealIff(d: nat, b: nat)
    ensures (forall c: Claim :: c.period <= b && c.computation <= b ==> Admit(Machine, Ledger(0, d), c) == Admit(Ideal, Ledger(0, d), c))
      <==> 1000 * b < UINT
  {
    if 1000 * b >= UINT {
      var c := Claim(2, 4294968);
      assert c.period <= b && c.computation <= b;
      assert Admit(Machine, Ledger(0, d), c).accepted && !Admit(Ideal, Ledger(0, d), c).accepted;
    }
  }

  // ---------------------------------------------------------------------------
  // Work over a common horizon
  // ---------------------------------------------------------------------------

  /** The work of all jobs released in `h` ticks by tasks released together. */
  function WorkOver(cs: seq<Claim>, h: nat): nat
    requires Periodic(cs)
  {
    if cs == [] then 0 else
      WorkOver(cs[..|cs| - 1], h) + JobWork(cs[|cs| - 1], h)
  }

  function JobWork(c: Claim, h: nat): nat
    requires c.period > 0
  {
    c.computation * (h / c.period)
  }

  lemma {:induction false} WorkOverIsTotal(cs: seq<Claim>, h: nat)
    requires Periodic(cs) && forall i :: 0 <= i < |cs| ==> h % cs[i].period == 0
    ensures WorkOver(cs, h) as real == Over(Total(cs), h)
  {
    if cs != [] {
      var n := |cs| - 1;
      var c := cs[n];
      WorkOverIsTotal(cs[..n], h);
      assert cs == cs[..n] + [c];
      TotalAppend(cs[..n], c);
      ShareOver(c, h);
      OverSum(Total(cs[..n]), Share(c), h);
    }
  }

  /** The work of a share `u` over `h` ticks. */
  function Over(u: real, h: nat): real {
    u * h as real
  }

  lemma OverSum(u: real, v: real, h: nat)
    ensures Over(u + v, h) == Over(u, h) + Over(v, h)
  {
  }

  lemma ShareOver(c: Claim, h: nat)
    requires c.period > 0 && h % c.period == 0
    ensures JobWork(c, h) as real == Over(Share(c), h)
  {
    var k, u := h / c.period, Share(c);
    assert h == k * c.period;
    ShareTimesPeriod(c);
    assert h as real == k as real * c.period as real;
    assert (c.computation * k) as real == c.computation as real * k as real;
    assert u * (k as real * c.period as real) == u * c.period as real * k as real;
  }

  lemma HorizonWithinLimit(cs: seq<Claim>, h: nat)
    requires Periodic(cs) && Total(cs) <= LIMIT
    requires forall i :: 0 <= i < |cs| ==> h % cs[i].period == 0
    ensures 1000 * WorkOver(cs, h) <= 693 * h
  {
    WorkOverIsTotal(cs, h);
    if h > 0 {
      assert Ratio(WorkOver(cs, h), h, Total(cs));
      CompareLimit(WorkOver(cs, h), h, Total(cs));
    }
  }
}
