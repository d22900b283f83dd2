/**
  Why 693/1000 is a sound admission limit.

  If the shares of a list of tasks sum to at most 0.693, then the product of
  (1 + share) is at most 2, however long the list is.  This is the hyperbolic
  form of the rate-monotonic test.  0.693 is below ln 2 by about 0.00015, and the
  proof works without logarithms: split every share in GRAIN parts, bound the
  product of the small factors by the reciprocal of one minus their sum, and
  raise back to the power GRAIN.
 */
module HyperbolicBound {
  import opened Load

  const GRAIN: nat := 2048
  const LIMIT: real := 0.693

  function Pow(x: real, n: nat): real {
    if n == 0 then 1.0 else x * Pow(x, n - 1)
  }

  lemma {:induction false} PowMonotone(x: real, y: real, n: nat)
    requires 0.0 <= x <= y
    ensures 0.0 <= Pow(x, n) <= Pow(y, n)
  {
    if n > 0 {
      PowMonotone(x, y, n - 1);
      MulMonotone(x, y, Pow(x, n - 1), Pow(y, n - 1));
    }
  }

  lemma MulMonotone(a: real, b: real, c: real, d: real)
    requires 0.0 <= a <= b && 0.0 <= c <= d
    ensures 0.0 <= a * c <= b * d
  {
    assert a * c <= b * c;
    assert b * c <= b * d;
  }

  lemma {:induction false} PowProduct(x: real, y: real, xy: real, n: nat)
    requires xy == x * y
    ensures Pow(xy, n) == Pow(x, n) * Pow(y, n)
  {
    if n > 0 {
      PowProduct(x, y, xy, n - 1);
      var p, q := Pow(x, n - 1), Pow(y, n - 1);
      assert x * y * (p * q) == (x * p) * (y * q);
    }
  }

  lemma {:induction false} PowSum(x: real, m: nat, n: nat)
    ensures Pow(x, m + n) == Pow(x, m) * Pow(x, n)
  {
    if m > 0 {
      PowSum(x, m - 1, n);
      var p, q := Pow(x, m - 1), Pow(x, n);
      assert x * (p * q) == (x * p) * q;
    }
  }

  /** Bernoulli's inequality. */
  lemma {:induction false} Bernoulli(y: real, n: nat)
    requires y >= 0.0
    ensures Pow(1.0 + y, n) >= 1.0 + n as real * y
  {
    if n > 0 {
      Bernoulli(y, n - 1);
      var p, k := Pow(1.0 + y, n - 1), (n - 1) as real;
      var low := 1.0 + k * y;
      assert k * y >= 0.0;
      MulMonotone(1.0 + y, 1.0 + y, low, p);
      assert y * low == y + y * (k * y);
      assert y * (k * y) >= 0.0;
      assert (1.0 + y) * low == low + y * low;
      assert (k + 1.0) * y == k * y + y;
    }
  }

  /** Every share divided in GRAIN parts. */
  function Split(us: seq<real>): (ys: seq<real>)
    requires NonNegative(us)
    ensures |ys| == |us| && NonNegative(ys)
    ensures forall i :: 0 <= i < |us| ==> ys[i] == us[i] / GRAIN as real
  {
    seq(|us|, i requires 0 <= i < |us| => us[i] / GRAIN as real)
  }

  lemma {:induction false} SplitSum(us: seq<real>)
    requires NonNegative(us)
    ensures Sum(Split(us)) == Sum(us) / GRAIN as real
  {
    if us != [] {
      SplitSum(us[..|us| - 1]);
      assert Split(us)[..|us| - 1] == Split(us[..|us| - 1]);
    }
  }

  /** Splitting the shares only enlarges the product. */
  lemma {:induction false} SplitAbove(us: seq<real>)
    requires NonNegative(us)
    ensures Product(us) <= Pow(Product(Split(us)), GRAIN)
  {
    if us == [] {
      OnePower(GRAIN);
    } else {
      var n := |us| - 1;
      SplitAbove(us[..n]);
      ProductAtLeastOne(us[..n]);
      assert Split(us)[..n] == Split(us[..n]);
      SplitOne(Product(us[..n]), Product(Split(us[..n])), us[n], us[n] / GRAIN as real, GRAIN);
    }
  }

  lemma SplitOne(h: real, f: real, u: real, y: real, m: nat)
    requires 0.0 <= h <= Pow(f, m) && u >= 0.0 && y >= 0.0 && m as real * y == u
    ensures Scale(h, u) <= Pow(Scale(f, y), m)
  {
    Bernoulli(y, m);
    MulMonotone(h, Pow(f, m), 1.0 + u, Pow(1.0 + y, m));
    PowProduct(f, 1.0 + y, Scale(f, y), m);
  }

  /** Small factors multiply to at most the reciprocal of one minus their sum. */
  lemma {:induction false} ProductBelow(ys: seq<real>)
    requires NonNegative(ys)
    ensures Product(ys) * (1.0 - Sum(ys)) <= 1.0
  {
    if ys != [] {
      var n := |ys| - 1;
      ProductBelow(ys[..n]);
      ProductAtLeastOne(ys[..n]);
      OneFactor(Product(ys[..n]), Sum(ys[..n]), ys[n]);
    }
  }

  lemma OneFactor(f: real, s: real, y: real)
    requires f >= 1.0 && s >= 0.0 && y >= 0.0
    requires f * (1.0 - s) <= 1.0
    ensures f * (1.0 + y) * (1.0 - (s + y)) <= 1.0
  {
    var lost := y * (s + y);
    assert lost >= 0.0;
    assert f * lost >= 0.0;
    assert (1.0 + y) * (1.0 - (s + y)) == 1.0 - s - lost;
    assert f * (1.0 + y) * (1.0 - (s + y)) == f * ((1.0 + y) * (1.0 - (s + y)));
    assert f * (1.0 - s - lost) == f * (1.0 - s) - f * lost;
  }

  lemma Square(x: real, n: nat, low: real, squared: real)
    requires 0.0 <= low <= Pow(x, n)
    requires squared <= low * low
    ensures squared <= Pow(x, 2 * n)
  {
    PowSum(x, n, n);
    MulMonotone(low, Pow(x, n), low, Pow(x, n));
  }

  /** (1 - 0.693/2048)^2048 is at least one half, by eleven squarings rounded down. */
  lemma LimitPower()
    ensures Pow(1.0 - LIMIT / GRAIN as real, GRAIN) >= 0.5
  {
    var x := 1.0 - LIMIT / GRAIN as real;
    assert Pow(x, 1) == x;
    Square(x, 1, 0.999661621093, 0.999323356686);
    Square(x, 2, 0.999323356686, 0.998647171218);
    Square(x, 4, 0.998647171218, 0.997296172581);
    Square(x, 8, 0.997296172581, 0.994599655844);
    Square(x, 16, 0.994599655844, 0.989228475405);
    Square(x, 32, 0.989228475405, 0.978572976552);
    Square(x, 64, 0.978572976552, 0.957605070437);
    Square(x, 128, 0.957605070437, 0.917007470926);
    Square(x, 256, 0.917007470926, 0.840902701734);
    Square(x, 512, 0.840902701734, 0.707117353783);
    Square(x, 1024, 0.707117353783, 0.500014952021);
  }

  /** Total utilization at most 0.693 implies the hyperbolic test, for lists of every length. */
  lemma LimitIsHyperbolic(cs: seq<Claim>)
    requires Periodic(cs) && Total(cs) <= LIMIT
    ensures Hyperbolic(cs) <= 2.0
  {
    SplitAbove(Shares(cs));
    SplitBelow(Shares(cs));
  }

  lemma SplitBelow(us: seq<real>)
    requires NonNegative(us) && Sum(us) <= LIMIT
    ensures Pow(Product(Split(us)), GRAIN) <= 2.0
  {
    var ys := Split(us);
    SplitSum(us);
    ProductBelow(ys);
    ProductAtLeastOne(ys);
    Reciprocal(Product(ys), Sum(ys));
  }

  lemma Reciprocal(f: real, s: real)
    requires f >= 0.0 && s <= LIMIT / GRAIN as real && f * (1.0 - s) <= 1.0
    ensures Pow(f, GRAIN) <= 2.0
  {
    var q := 1.0 - s;
    LimitPower();
    PowMonotone(1.0 - LIMIT / GRAIN as real, q, GRAIN);
    MulMonotone(0.0, f, 0.0, q);
    PowMonotone(f * q, 1.0, GRAIN);
    OnePower(GRAIN);
    PowProduct(f, q, f * q, GRAIN);
    Halve(Pow(f, GRAIN), Pow(q, GRAIN));
  }

  lemma {:induction false} OnePower(n: nat)
    ensures Pow(1.0, n) == 1.0
  {
    if n > 0 {
      OnePower(n - 1);
    }
  }

  lemma Halve(p: real, q: real)
    requires 0.5 <= q && p * q <= 1.0
    ensures p <= 2.0
  {
    if p >= 0.0 {
      MulMonotone(p, p, 0.5, q);
    }
  }
}
