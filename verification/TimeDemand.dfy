/**
  From the hyperbolic test to time demand: if the product of (1 + share) is at most 2,
  then for the longest period `p` of a list there is an instant t <= p by which all the
  work released in [0, t), when every task is released at 0, can have been done.

  The instants tried are the last multiples of each period that do not exceed `p`.  If the
  demand exceeded every one of them, the product would telescope to more than 2.
 */
module TimeDemand {
  import opened Load
  import opened HyperbolicBound

  /** The number of releases, `period` apart and the first at 0, that fall before `t`. */
  function Releases(t: nat, period: nat): (k: nat)
    requires period > 0
  {
    (t + period - 1) / period
  }

  function ReleasedWork(c: Claim, t: nat): nat
    requires c.period > 0
  {
    Releases(t, c.period) * c.computation
  }

  /** The work released before `t` by all claims together. */
  function Demand(cs: seq<Claim>, t: nat): nat
    requires Periodic(cs)
  {
    if cs == [] then 0 else Demand(cs[..|cs| - 1], t) + ReleasedWork(cs[|cs| - 1], t)
  }

  predicate Within(cs: seq<Claim>, p: nat) {
    forall i :: 0 <= i < |cs| ==> 0 < cs[i].period <= p
  }

  // ---------------------------------------------------------------------------
  // The telescoping product
  // ---------------------------------------------------------------------------

  /** A share, an instant at which it is tried, and the work it makes up by then. */
  datatype Trial = Trial(share: real, instant: real, work: real)

  ghost predicate Sound(x: Trial) {
    x.share >= 0.0 && x.instant > 0.0 && x.work >= 0.0 && x.share * x.instant == x.work
  }

  ghost predicate AllSound(xs: seq<Trial>) {
    forall i :: 0 <= i < |xs| ==> Sound(xs[i])
  }

  function TrialShares(xs: seq<Trial>): (us: seq<real>)
    ensures |us| == |xs| && forall i :: 0 <= i < |xs| ==> us[i] == xs[i].share
  {
    seq(|xs|, i requires 0 <= i < |xs| => xs[i].share)
  }

  function Work(xs: seq<Trial>): real {
    if xs == [] then 0.0 else Work(xs[..|xs| - 1]) + xs[|xs| - 1].work
  }

  /** The work of the trials that lie before `t`. */
  function WorkBefore(xs: seq<Trial>, t: real): real {
    if xs == [] then 0.0 else
      WorkBefore(xs[..|xs| - 1], t) + (if xs[|xs| - 1].instant < t then xs[|xs| - 1].work else 0.0)
  }

  /** The trial is overrun by the amount `s` and the work of the earlier trials. */
  ghost predicate OverrunAt(xs: seq<Trial>, s: real, x: Trial) {
    x.instant < s + WorkBefore(xs, x.instant)
  }

  ghost predicate Overrun(xs: seq<Trial>, s: real) {
    forall i :: 0 <= i < |xs| ==> OverrunAt(xs, s, xs[i])
  }

  lemma LastTrial(xs: seq<Trial>) returns (m: nat)
    requires xs != []
    ensures m < |xs| && forall i :: 0 <= i < |xs| ==> xs[i].instant <= xs[m].instant
  {
    m := 0;
    for k := 1 to |xs|
      invariant m < |xs| && forall i :: 0 <= i < k ==> xs[i].instant <= xs[m].instant
    {
      if xs[m].instant < xs[k].instant {
        m := k;
      }
    }
  }

  lemma {:induction false} WorkWithout(xs: seq<Trial>, m: nat, t: real)
    requires m < |xs|
    ensures Work(xs) == Work(Without(xs, m)) + xs[m].work
    ensures WorkBefore(xs, t) == WorkBefore(Without(xs, m), t) + (if xs[m].instant < t then xs[m].work else 0.0)
  {
    var n := |xs| - 1;
    if m == n {
      assert Without(xs, m) == xs[..n];
    } else {
      WorkWithout(xs[..n], m, t);
      assert Without(xs, m)[..n - 1] == Without(xs[..n], m);
    }
  }

  lemma SharesWithout(xs: seq<Trial>, m: nat)
    requires m < |xs|
    ensures Product(TrialShares(xs)) == Scale(Product(TrialShares(Without(xs, m))), xs[m].share)
  {
    ProductWithout(TrialShares(xs), m);
    assert Without(TrialShares(xs), m) == TrialShares(Without(xs, m));
  }

  /** Taking out the last trial changes none of the sums of earlier work. */
  lemma OverrunWithout(xs: seq<Trial>, m: nat, s: real)
    requires m < |xs| && forall i :: 0 <= i < |xs| ==> xs[i].instant <= xs[m].instant
    requires Overrun(xs, s)
    ensures Overrun(Without(xs, m), s) && OverrunAt(Without(xs, m), s, xs[m])
  {
    var rest := Without(xs, m);
    forall i | 0 <= i < |xs|
      ensures OverrunAt(rest, s, xs[i])
    {
      WorkWithout(xs, m, xs[i].instant);
    }
  }

  lemma {:induction false} WorkBeforeAtMostWork(xs: seq<Trial>, t: real)
    requires forall i :: 0 <= i < |xs| ==> xs[i].work >= 0.0
    ensures 0.0 <= WorkBefore(xs, t) <= Work(xs)
  {
    if xs != [] {
      WorkBeforeAtMostWork(xs[..|xs| - 1], t);
    }
  }

  function Times(h: real, s: real): real {
    h * s
  }

  /** Overrun trials have a product of at least, and with any work more than, (s + work) / s. */
  lemma {:induction false} Telescope(xs: seq<Trial>, s: real)
    requires s > 0.0 && AllSound(xs) && Overrun(xs, s)
    ensures Times(Product(TrialShares(xs)), s) >= s + Work(xs)
    ensures Work(xs) > 0.0 ==> Times(Product(TrialShares(xs)), s) > s + Work(xs)
    decreases |xs|
  {
    if xs != [] {
      var m := LastTrial(xs);
      var rest := Without(xs, m);
      OverrunWithout(xs, m, s);
      WorkBeforeAtMostWork(rest, xs[m].instant);
      Telescope(rest, s);
      WorkWithout(xs, m, 0.0);
      SharesWithout(xs, m);
      TelescopeOne(Product(TrialShares(rest)), s, s + Work(rest), xs[m]);
    }
  }

  lemma TelescopeOne(h: real, s: real, a: real, x: Trial)
    requires Sound(x) && s > 0.0 && Times(h, s) >= a > x.instant
    ensures Times(Scale(h, x.share), s) >= a + x.work
    ensures x.work > 0.0 || Times(h, s) > a ==> Times(Scale(h, x.share), s) > a + x.work
  {
    var u, q := x.share, h * s;
    assert Times(Scale(h, u), s) == q + q * u;
    assert q * u >= a * u;
    assert a * u >= x.instant * u;
    if x.work > 0.0 {
      assert u > 0.0;
      assert a * u > x.instant * u;
    }
  }

  // ---------------------------------------------------------------------------
  // Claims as trials
  // ---------------------------------------------------------------------------

  /** The last multiple of the claim's period that does not exceed `p`. */
  function LastMultiple(c: Claim, p: nat): (t: nat)
    requires 0 < c.period <= p
    ensures 0 < t <= p
  {
    QuotientBounds(p, c.period);
    p / c.period * c.period
  }

  /** The claim tried at that instant. */
  function TrialOf(c: Claim, p: nat): Trial
    requires 0 < c.period <= p
  {
    var k := p / c.period;
    Trial(Share(c), LastMultiple(c, p) as real, (k * c.computation) as real)
  }

  function Trials(cs: seq<Claim>, p: nat): (xs: seq<Trial>)
    requires Within(cs, p)
    ensures |xs| == |cs| && forall i :: 0 <= i < |cs| ==> xs[i] == TrialOf(cs[i], p)
  {
    seq(|cs|, i requires 0 <= i < |cs| => TrialOf(cs[i], p))
  }

  lemma QuotientBounds(p: nat, d: nat)
    requires 0 < d <= p
    ensures 1 <= p / d
    ensures 0 < p / d * d <= p < p / d * d + d
  {
    var k := p / d;
    assert p == k * d + p % d;
    assert k >= 1;
    assert k * d >= 1;
  }

  lemma TrialIsSound(c: Claim, p: nat)
    requires 0 < c.period <= p
    ensures Sound(TrialOf(c, p))
  {
    QuotientBounds(p, c.period);
    var k, d, w, u := (p / c.period) as real, c.period as real, c.computation as real, Share(c);
    assert u * d == w;
    assert u * (k * d) == k * (u * d);
  }

  lemma ReleasesBound(t: nat, d: nat, p: nat)
    requires 0 < d <= p && t <= p
    ensures Releases(t, d) <= p / d + (if p / d * d < t then 1 else 0)
  {
    var k := p / d;
    QuotientBounds(p, d);
    var b := k + (if k * d < t then 1 else 0);
    assert (k + 1) * d == k * d + d;
    FewReleases(t, d, b);
  }

  lemma FewReleases(t: nat, d: nat, b: nat)
    requires d > 0 && t <= b * d
    ensures Releases(t, d) <= b
  {
    var r := Releases(t, d);
    assert r * d <= t + d - 1;
    assert (b + 1) * d == b * d + d;
    if r >= b + 1 {
      MulLe(b + 1, r, d);
      assert false;
    }
  }

  lemma MulLe(a: nat, b: nat, w: nat)
    requires a <= b
    ensures a * w <= b * w
  {
    assert b * w == a * w + (b - a) * w;
  }

  lemma ReleasedWorkBound(t: nat, c: Claim, p: nat)
    requires 0 < c.period <= p && t <= p
    ensures var x := TrialOf(c, p);
      ReleasedWork(c, t) as real <= x.work + (if x.instant < t as real then x.work else 0.0)
  {
    ReleasesBound(t, c.period, p);
    QuotientBounds(p, c.period);
    ScaledBound(Releases(t, c.period), p / c.period, LastMultiple(c, p) < t, c.computation);
  }

  lemma ScaledBound(r: nat, k: nat, late: bool, w: nat)
    requires k >= 1 && r <= k + (if late then 1 else 0)
    ensures r * w <= k * w + (if late then k * w else 0)
  {
    if late {
      MulLe(r, k + k, w);
      assert (k + k) * w == k * w + k * w;
    } else {
      MulLe(r, k, w);
    }
  }

  lemma {:induction false} DemandBound(cs: seq<Claim>, p: nat, t: nat)
    requires Within(cs, p) && t <= p
    ensures Demand(cs, t) as real <= Work(Trials(cs, p)) + WorkBefore(Trials(cs, p), t as real)
  {
    if cs != [] {
      var n := |cs| - 1;
      DemandBound(cs[..n], p, t);
      ReleasedWorkBound(t, cs[n], p);
      assert Trials(cs, p)[..n] == Trials(cs[..n], p);
    }
  }

  ghost predicate Exceeded(cs: seq<Claim>, p: nat)
    requires Within(cs, p)
  {
    forall i :: 0 <= i < |cs| ==> Demand(cs, LastMultiple(cs[i], p)) > LastMultiple(cs[i], p)
  }

  lemma ExceededIsOverrun(cs: seq<Claim>, p: nat)
    requires Within(cs, p) && Exceeded(cs, p)
    ensures Overrun(Trials(cs, p), Work(Trials(cs, p)))
  {
    forall i | 0 <= i < |cs|
      ensures OverrunAt(Trials(cs, p), Work(Trials(cs, p)), Trials(cs, p)[i])
    {
      DemandBound(cs, p, LastMultiple(cs[i], p));
    }
  }

  /** Were the demand to exceed every instant tried, the product would exceed 2. */
  lemma OverrunExceedsTwo(cs: seq<Claim>, p: nat)
    requires cs != [] && Within(cs, p) && Exceeded(cs, p)
    ensures Hyperbolic(cs) > 2.0
  {
    var xs := Trials(cs, p);
    ExceededIsOverrun(cs, p);
    TrialsAreSound(cs, p);
    assert xs[0].instant > 0.0 && OverrunAt(xs, Work(xs), xs[0]);
    WorkBeforeAtMostWork(xs, xs[0].instant);
    Telescope(xs, Work(xs));
    assert TrialShares(xs) == Shares(cs);
    MoreThanTwo(Hyperbolic(cs), Work(xs));
  }

  lemma TrialsAreSound(cs: seq<Claim>, p: nat)
    requires Within(cs, p)
    ensures AllSound(Trials(cs, p))
  {
    forall i | 0 <= i < |cs|
      ensures Sound(TrialOf(cs[i], p))
    {
      TrialIsSound(cs[i], p);
    }
  }

  lemma MoreThanTwo(h: real, s: real)
    requires s > 0.0 && Times(h, s) > s + s
    ensures h > 2.0
  {
    assert (h - 2.0) * s > 0.0;
  }

  /** The hyperbolic test yields an instant, no later than `p`, that covers the demand before it. */
  lemma DemandIsMet(cs: seq<Claim>, p: nat) returns (t: nat)
    requires p > 0 && Within(cs, p) && Hyperbolic(cs) <= 2.0
    ensures 0 < t <= p && Demand(cs, t) <= t
  {
    t := p;
    if cs != [] {
      if Exceeded(cs, p) {
        OverrunExceedsTwo(cs, p);
        assert false;
      } else {
        var i :| 0 <= i < |cs| && Demand(cs, LastMultiple(cs[i], p)) <= LastMultiple(cs[i], p);
        t := LastMultiple(cs[i], p);
      }
    }
  }
}
