/** Population statistics of a batch of measured values: the part of
    `scipy.stats.zscore` (ddof = 0) that needs no square root.
    Every function recurses on the LAST element, so that a left-to-right
    loop over a prefix `xs[..i]` can be tied to it directly. */
module Stats {

  function Sum(xs: seq<real>): real
  {
    if xs == [] then 0.0 else Sum(xs[..|xs| - 1]) + xs[|xs| - 1]
  }

  /** Population mean: n copies of it add up to the sum. The empty batch has
      no rows to score, so its mean is never used. */
  function Mean(xs: seq<real>): (m: real)
    ensures xs != [] ==> m * (|xs| as real) == Sum(xs)
  {
    if xs == [] then 0.0
    else
      var n := |xs| as real;
      DivMul(Sum(xs), n);
      Sum(xs) / n
  }

  /** Squared deviation of one value from `m`. */
  function SqDev(x: real, m: real): (q: real)
    ensures q >= 0.0
  {
    (x - m) * (x - m)
  }

  /** Sum of squared deviations from `m`. */
  function SumSqDev(xs: seq<real>, m: real): (q: real)
    ensures q >= 0.0
  {
    if xs == [] then 0.0 else SumSqDev(xs[..|xs| - 1], m) + SqDev(xs[|xs| - 1], m)
  }

  /** Population variance (divide by n, not n - 1): n copies of it add up
      to the sum of squared deviations from the mean. */
  function PopVariance(xs: seq<real>): (v: real)
    ensures v >= 0.0
    ensures xs != [] ==> v * (|xs| as real) == SumSqDev(xs, Mean(xs))
  {
    if xs == [] then 0.0
    else
      var n := |xs| as real;
      DivMul(SumSqDev(xs, Mean(xs)), n);
      SumSqDev(xs, Mean(xs)) / n
  }

  /** Number of values whose squared deviation from `m` exceeds `t`. */
  function CountAbove(xs: seq<real>, m: real, t: real): (k: nat)
    ensures k <= |xs|
  {
    if xs == [] then 0
    else CountAbove(xs[..|xs| - 1], m, t) + (if SqDev(xs[|xs| - 1], m) > t then 1 else 0)
  }

  ghost predicate AllEqual(xs: seq<real>, c: real)
  {
    forall i :: 0 <= i < |xs| ==> xs[i] == c
  }

  lemma {:induction false} SumOfConstant(xs: seq<real>, c: real)
    requires AllEqual(xs, c)
    ensures Sum(xs) == (|xs| as real) * c
  {
    if xs != [] {
      var p := xs[..|xs| - 1];
      assert AllEqual(p, c);
      SumOfConstant(p, c);
    }
  }

  lemma {:induction false} SumSqDevOfConstant(xs: seq<real>, c: real)
    requires AllEqual(xs, c)
    ensures SumSqDev(xs, c) == 0.0
  {
    if xs != [] {
      var p := xs[..|xs| - 1];
      assert AllEqual(p, c);
      SumSqDevOfConstant(p, c);
    }
  }

  /** A batch of identical values (including a single value) has that value
      as its mean and zero variance. */
  lemma ConstantBatch(xs: seq<real>, c: real)
    requires |xs| > 0 && AllEqual(xs, c)
    ensures Mean(xs) == c
    ensures PopVariance(xs) == 0.0
  {
    SumOfConstant(xs, c);
    var n := |xs| as real;
    assert Sum(xs) / n == c by {
      assert Sum(xs) == n * c;
    }
    SumSqDevOfConstant(xs, c);
  }

  /** Markov's inequality on the squared deviations: at least `t` is
      contributed by each value counted above `t`, and strictly more than
      `t * k` once anything is counted. */
  lemma {:induction false} SumSqDevBoundsCount(xs: seq<real>, m: real, t: real)
    requires t >= 0.0
    ensures SumSqDev(xs, m) >= t * (CountAbove(xs, m, t) as real)
    ensures CountAbove(xs, m, t) > 0 ==> SumSqDev(xs, m) > t * (CountAbove(xs, m, t) as real)
  {
    if xs != [] {
      var p := xs[..|xs| - 1];
      var q := SqDev(xs[|xs| - 1], m);
      SumSqDevBoundsCount(p, m, t);
      var k := CountAbove(p, m, t) as real;
      assert SumSqDev(xs, m) == SumSqDev(p, m) + q;
      if q > t {
        assert CountAbove(xs, m, t) as real == k + 1.0;
        assert t * (k + 1.0) == t * k + t;
      } else {
        assert CountAbove(xs, m, t) as real == k;
      }
    }
  }

  lemma MulStrict(a: real, b: real, c: real)
    requires a < b && c > 0.0
    ensures a * c < b * c
  {
  }

  lemma MulLe(a: real, b: real, c: real)
    requires a <= b && c > 0.0
    ensures a * c <= b * c
  {
    if a < b {
      MulStrict(a, b, c);
    }
  }

  lemma DivMul(d: real, s: real)
    requires s != 0.0
    ensures (d / s) * s == d
  {
  }

  /** If a total `s` spread over `n` items averages `v > 0` and exceeds
      `k` shares of `4 * v`, then `4 * k < n`. */
  lemma QuarterBound(s: real, n: real, v: real, k: real)
    requires n > 0.0 && v > 0.0 && v == s / n
    requires s > (4.0 * v) * k
    ensures 4.0 * k < n
  {
    DivMul(s, n);
    assert s == v * n;
    if n <= 4.0 * k {
      MulLe(n, 4.0 * k, v);
    }
  }

  /** Chebyshev's inequality for the threshold four times the mean squared
      deviation `v`: fewer than a quarter of the values lie above it. */
  lemma ChebyshevQuarter(xs: seq<real>, m: real, v: real)
    requires |xs| > 0 && v > 0.0 && v == SumSqDev(xs, m) / (|xs| as real)
    ensures 4 * CountAbove(xs, m, 4.0 * v) < |xs|
  {
    var k := CountAbove(xs, m, 4.0 * v);
    SumSqDevBoundsCount(xs, m, 4.0 * v);
    if k > 0 {
      QuarterBound(SumSqDev(xs, m), |xs| as real, v, k as real);
    }
  }
}
