/**
  The utilization of a list of periodic tasks, as exact real numbers.

  The module under study never computes with these: it keeps one fraction of
  unsigned integers instead.  They are the reference the fraction is held to.
 */
module Load {

  /** What a task asks for at registration: `computation` units of processor in every `period`. */
  datatype Claim = Claim(period: nat, computation: nat)

  predicate Periodic(cs: seq<Claim>) {
    forall i :: 0 <= i < |cs| ==> cs[i].period > 0
  }

  /** The part of the processor that a claim takes. */
  function Share(c: Claim): (u: real)
    requires c.period > 0
    ensures u >= 0.0
  {
    c.computation as real / c.period as real
  }

  lemma ShareTimesPeriod(c: Claim)
    requires c.period > 0
    ensures Share(c) * c.period as real == c.computation as real
  {
  }

  function Shares(cs: seq<Claim>): (us: seq<real>)
    requires Periodic(cs)
    ensures |us| == |cs| && NonNegative(us)
    ensures forall i :: 0 <= i < |us| ==> us[i] == Share(cs[i])
  {
    seq(|cs|, i requires 0 <= i < |cs| => Share(cs[i]))
  }

  predicate NonNegative(us: seq<real>) {
    forall i :: 0 <= i < |us| ==> us[i] >= 0.0
  }

  function Sum(us: seq<real>): (s: real)
    ensures NonNegative(us) ==> s >= 0.0
  {
    if us == [] then 0.0 else Sum(us[..|us| - 1]) + us[|us| - 1]
  }

  /** The product of (1 + u) over the list. */
  function Product(us: seq<real>): (p: real) {
    if us == [] then 1.0 else Scale(Product(us[..|us| - 1]), us[|us| - 1])
  }

  function Scale(p: real, u: real): real {
    p * (1.0 + u)
  }

  /** Total utilization. */
  function Total(cs: seq<Claim>): (u: real)
    requires Periodic(cs)
    ensures u >= 0.0
  {
    Sum(Shares(cs))
  }

  /** The left-hand side of the hyperbolic rate-monotonic test. */
  function Hyperbolic(cs: seq<Claim>): (h: real)
    requires Periodic(cs)
  {
    Product(Shares(cs))
  }

  /** The list without its element at index `i`. */
  function Without<T>(s: seq<T>, i: nat): (r: seq<T>)
    requires i < |s|
    ensures |r| == |s| - 1
    ensures forall j :: 0 <= j < |r| ==> r[j] == s[if j < i then j else j + 1]
  {
    s[..i] + s[i + 1..]
  }

  ghost predicate Distinct<T>(s: seq<T>) {
    forall i, j :: 0 <= i < j < |s| ==> s[i] != s[j]
  }

  lemma DistinctWithout<T>(s: seq<T>, i: nat)
    requires Distinct(s) && i < |s|
    ensures Distinct(Without(s, i))
  {
    var r := Without(s, i);
    forall j, k | 0 <= j < k < |r|
      ensures r[j] != r[k]
    {
      assert s[if j < i then j else j + 1] != s[if k < i then k else k + 1];
    }
  }

  lemma TotalAppend(cs: seq<Claim>, c: Claim)
    requires Periodic(cs) && c.period > 0
    ensures Total(cs + [c]) == Total(cs) + Share(c)
  {
    assert Shares(cs + [c])[..|cs|] == Shares(cs);
  }

  lemma TotalWithout(cs: seq<Claim>, i: nat)
    requires Periodic(cs) && i < |cs|
    ensures Total(cs) == Total(Without(cs, i)) + Share(cs[i])
  {
    SumWithout(Shares(cs), i);
    assert Without(Shares(cs), i) == Shares(Without(cs, i));
  }

  lemma {:induction false} SumWithout(us: seq<real>, i: nat)
    requires i < |us|
    ensures Sum(us) == Sum(Without(us, i)) + us[i]
  {
    var n := |us| - 1;
    if i == n {
      assert Without(us, i) == us[..n];
    } else {
      SumWithout(us[..n], i);
      assert Without(us, i)[..n - 1] == Without(us[..n], i);
    }
  }

  lemma ProductSnoc(us: seq<real>, u: real)
    ensures Product(us + [u]) == Scale(Product(us), u)
  {
    assert (us + [u])[..|us|] == us;
  }

  lemma {:induction false} ProductWithout(us: seq<real>, i: nat)
    requires i < |us|
    ensures Product(us) == Scale(Product(Without(us, i)), us[i])
  {
    var n := |us| - 1;
    assert us == us[..n] + [us[n]];
    ProductSnoc(us[..n], us[n]);
    if i == n {
      assert Without(us, i) == us[..n];
    } else {
      ProductWithout(us[..n], i);
      assert Without(us, i) == Without(us[..n], i) + [us[n]];
      ProductSnoc(Without(us[..n], i), us[n]);
      Swap(Product(Without(us[..n], i)), us[i], us[n]);
    }
  }

  lemma Swap(p: real, x: real, y: real)
    ensures Scale(Scale(p, x), y) == Scale(Scale(p, y), x)
  {
  }

  lemma {:induction false} ProductAtLeastOne(us: seq<real>)
    requires NonNegative(us)
    ensures Product(us) >= 1.0
  {
    if us != [] {
      var n := |us| - 1;
      ProductAtLeastOne(us[..n]);
      Grow(Product(us[..n]), us[n]);
    }
  }

  lemma Grow(p: real, u: real)
    requires p >= 0.0 && u >= 0.0
    ensures Scale(p, u) >= p
  {
    assert Scale(p, u) == p + p * u;
  }

  /** The total does not depend on the order in which the tasks were registered. */
  lemma TotalOfPermutation(cs: seq<Claim>, ds: seq<Claim>)
    requires Periodic(cs) && Periodic(ds)
    requires multiset(cs) == multiset(ds)
    ensures Total(cs) == Total(ds)
    decreases |cs|
  {
    if cs == [] {
      assert |multiset(ds)| == 0;
    } else {
      var n := |cs| - 1;
      var i := TakeOut(cs, ds);
      TotalOfPermutation(cs[..n], Without(ds, i));
      TotalWithout(ds, i);
      TotalWithout(cs, n);
      assert Without(cs, n) == cs[..n];
    }
  }

  lemma TakeOut(cs: seq<Claim>, ds: seq<Claim>) returns (i: nat)
    requires cs != [] && multiset(cs) == multiset(ds)
    ensures i < |ds| && ds[i] == cs[|cs| - 1]
    ensures multiset(cs[..|cs| - 1]) == multiset(Without(ds, i))
  {
    var n := |cs| - 1;
    assert cs[n] in multiset(ds);
    i :| 0 <= i < |ds| && ds[i] == cs[n];
    assert cs == cs[..n] + [cs[n]];
    assert ds == ds[..i] + [ds[i]] + ds[i + 1..];
    assert multiset(cs[..n]) == multiset(cs) - multiset{cs[n]};
    assert multiset(Without(ds, i)) == multiset(ds) - multiset{ds[i]};
  }
}
