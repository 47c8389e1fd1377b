/** Per-row judgement of a QC batch: the pass/fail verdict against the
    specification limits and the z-score outlier mark. */
module Judgement {
  import opened Stats

  /** One row of the uploaded table: item name (항목명), measured value
      (측정값), lower limit (기준하한) and upper limit (기준상한). */
  datatype Row = Row(item: string, value: real, lower: real, upper: real)

  datatype Verdict = Pass | Fail

  /** The text stored in the Result column. */
  function VerdictText(v: Verdict): (s: string)
    ensures s == "Pass" <==> v == Pass
    ensures s == "Fail" <==> v == Fail
  {
    match v
    case Pass => "Pass"
    case Fail => "Fail"
  }

  /** A row fails when its value lies below the lower limit or above the
      upper limit; the limits themselves belong to the accepted range. */
  function AssessRow(r: Row): (v: Verdict)
    ensures v == Pass <==> r.lower <= r.value <= r.upper
    ensures r.lower > r.upper ==> v == Fail
  {
    if r.value < r.lower || r.value > r.upper then Fail else Pass
  }

  /** A value equal to either limit passes, provided the limits are ordered. */
  lemma LimitsPass(r: Row)
    requires r.lower <= r.upper
    requires r.value == r.lower || r.value == r.upper
    ensures AssessRow(r) == Pass
  {
  }

  /** With inverted limits no value can pass. */
  lemma InvertedLimitsAlwaysFail(item: string, value: real, lower: real, upper: real)
    requires lower > upper
    ensures AssessRow(Row(item, value, lower, upper)) == Fail
  {
  }

  /** The verdict looks at the row's own three numbers and nothing else. */
  lemma VerdictIgnoresItemName(r: Row, name: string)
    ensures AssessRow(r.(item := name)) == AssessRow(r)
  {
  }

  /** The measured-value column of the table, in row order. */
  function Values(rows: seq<Row>): (xs: seq<real>)
    ensures |xs| == |rows|
    ensures forall i :: 0 <= i < |rows| ==> xs[i] == rows[i].value
  {
    if rows == [] then [] else Values(rows[..|rows| - 1]) + [rows[|rows| - 1].value]
  }

  /** The Result column: `AssessRow` applied to every row, in order. */
  method ResultColumn(rows: seq<Row>) returns (results: seq<Verdict>)
    ensures |results| == |rows|
    ensures forall i :: 0 <= i < |rows| ==> results[i] == AssessRow(rows[i])
  {
    results := [];
    var i := 0;
    while i < |rows|
      invariant 0 <= i <= |rows|
      invariant |results| == i
      invariant forall k :: 0 <= k < i ==> results[k] == AssessRow(rows[k])
    {
      results := results + [AssessRow(rows[i])];
      i := i + 1;
    }
  }

  // ---------------------------------------------------------------- z-scores

  /** A z-score as produced by `scipy.stats.zscore`: a quotient, or NaN when
      the standard deviation of the batch is zero. */
  datatype ZScore = NaN | Finite(z: real)

  function Abs(x: real): (a: real)
    ensures a >= 0.0
    ensures a == x || a == -x
  {
    if x < 0.0 then -x else x
  }

  /** The z-score of `x` in a batch with mean `m` and population standard
      deviation `sd`. */
  function ZScoreOf(x: real, m: real, sd: real): (z: ZScore)
    requires sd >= 0.0
    ensures z.NaN? <==> sd == 0.0
    ensures z.Finite? ==> z.z * sd == x - m
  {
    if sd == 0.0 then NaN
    else
      DivMul(x - m, sd);
      Finite((x - m) / sd)
  }

  /** `abs(z) > 2`; the comparison is false for NaN. */
  function Flagged(z: ZScore): (f: bool)
    ensures z.NaN? ==> !f
    ensures f <==> z.Finite? && (z.z > 2.0 || z.z < -2.0)
  {
    z.Finite? && Abs(z.z) > 2.0
  }

  /** Outlier test without a square root: squared deviation `q` above four
      times the variance `v`, which must be positive. */
  predicate Exceeds(q: real, v: real)
  {
    v > 0.0 && q > 4.0 * v
  }

  /** Row `i` of the batch `xs` is an outlier. */
  predicate Outlier(xs: seq<real>, i: nat)
    requires i < |xs|
  {
    Exceeds(SqDev(xs[i], Mean(xs)), PopVariance(xs))
  }

  /** The text stored in the Outlier column. */
  function OutlierText(flag: bool): (s: string)
    ensures s == "Yes" <==> flag
    ensures s == "" <==> !flag
  {
    if flag then "Yes" else ""
  }

  lemma AbsMul(z: real, s: real)
    requires s > 0.0
    ensures Abs(z * s) == Abs(z) * s
  {
    if z < 0.0 {
      MulStrict(z, 0.0, s);
    }
  }

  lemma AbsSquare(d: real)
    ensures Abs(d) * Abs(d) == d * d
  {
  }

  lemma SquareLt(a: real, b: real)
    requires 0.0 < b && b < a
    ensures b * b < a * a
  {
    MulStrict(b, a, b);
    MulStrict(b, a, a);
  }

  /** Squaring preserves the order of a non-negative and a positive number. */
  lemma SquareCompare(a: real, b: real)
    requires a >= 0.0 && b > 0.0
    ensures a > b <==> a * a > b * b
  {
    if a > b {
      SquareLt(a, b);
    } else if a < b {
      if a > 0.0 {
        SquareLt(b, a);
      } else {
        MulStrict(0.0, b, b);
      }
    }
  }

  lemma AbsQuotient(d: real, s: real)
    requires s > 0.0
    ensures Abs(d) == Abs(d / s) * s
  {
    DivMul(d, s);
    AbsMul(d / s, s);
  }

  /** For a positive standard deviation `s`, `|d / s| > 2` exactly when
      `d * d > 4 * s * s`; in particular `|d / s| == 2` is not flagged. */
  lemma ZScoreSquared(d: real, s: real)
    requires s > 0.0
    ensures Abs(d / s) > 2.0 <==> d * d > 4.0 * (s * s)
  {
    var a, e, t := Abs(d / s), Abs(d), 2.0 * s;
    AbsQuotient(d, s);
    if a > 2.0 {
      MulStrict(2.0, a, s);
      assert e > t;
    } else {
      MulLe(a, 2.0, s);
      assert e <= t;
    }
    SquareCompare(e, t);
    AbsSquare(d);
    assert t * t == 4.0 * (s * s);
  }

  /** The flag computed from the z-score agrees with the squared test, for
      any `sd` whose square is the variance `v`. */
  lemma ZScoreFlagSquared(x: real, m: real, sd: real, v: real)
    requires sd >= 0.0 && sd * sd == v
    ensures Flagged(ZScoreOf(x, m, sd)) <==> Exceeds(SqDev(x, m), v)
  {
    if sd > 0.0 {
      ZScoreSquared(x - m, sd);
      MulStrict(0.0, sd, sd);
    }
  }

  /** The source's outlier mark, computed from the z-score, is the squared
      outlier test on the batch. */
  lemma OutlierIsZScoreFlag(xs: seq<real>, i: nat, sd: real)
    requires i < |xs|
    requires sd >= 0.0 && sd * sd == PopVariance(xs)
    ensures Flagged(ZScoreOf(xs[i], Mean(xs), sd)) <==> Outlier(xs, i)
  {
    ZScoreFlagSquared(xs[i], Mean(xs), sd, PopVariance(xs));
  }

  /** A batch whose values are all equal, a single value included, has zero
      standard deviation, so every z-score is NaN and nothing is flagged. */
  lemma ConstantBatchNoOutliers(xs: seq<real>, c: real)
    requires |xs| > 0 && AllEqual(xs, c)
    ensures forall i :: 0 <= i < |xs| ==> !Outlier(xs, i)
  {
    ConstantBatch(xs, c);
  }

  lemma SingleValueNoOutlier(x: real)
    ensures !Outlier([x], 0)
  {
    ConstantBatchNoOutliers([x], x);
  }

  /** The Z-score column: every value scored against the batch mean and the
      population standard deviation `sd`, which the caller supplies as the
      non-negative square root of the variance. */
  method ZScoreColumn(xs: seq<real>, sd: real) returns (zs: seq<ZScore>)
    requires sd >= 0.0 && sd * sd == PopVariance(xs)
    ensures |zs| == |xs|
    ensures forall i :: 0 <= i < |xs| ==> zs[i] == ZScoreOf(xs[i], Mean(xs), sd)
  {
    var m := Mean(xs);
    zs := [];
    var i := 0;
    while i < |xs|
      invariant 0 <= i <= |xs|
      invariant |zs| == i
      invariant forall k :: 0 <= k < i ==> zs[k] == ZScoreOf(xs[k], m, sd)
    {
      zs := zs + [ZScoreOf(xs[i], m, sd)];
      i := i + 1;
    }
  }

  /** The Outlier column: "Yes" where `abs(z) > 2`, the empty string elsewhere. */
  method OutlierColumn(zs: seq<ZScore>) returns (marks: seq<string>)
    ensures |marks| == |zs|
    ensures forall i :: 0 <= i < |zs| ==> marks[i] == OutlierText(Flagged(zs[i]))
  {
    marks := [];
    var i := 0;
    while i < |zs|
      invariant 0 <= i <= |zs|
      invariant |marks| == i
      invariant forall k :: 0 <= k < i ==> marks[k] == OutlierText(Flagged(zs[k]))
    {
      marks := marks + [OutlierText(Flagged(zs[i]))];
      i := i + 1;
    }
  }

  // ------------------------------------------------------ how many are marked

  /** Number of "Yes" marks in an Outlier column. */
  function CountYes(marks: seq<string>): (k: nat)
    ensures k <= |marks|
  {
    if marks == [] then 0
    else CountYes(marks[..|marks| - 1]) + (if marks[|marks| - 1] == "Yes" then 1 else 0)
  }

  lemma {:induction false} CountYesMatches(xs: seq<real>, marks: seq<string>, m: real, t: real)
    requires |marks| == |xs|
    requires forall i :: 0 <= i < |xs| ==> marks[i] == OutlierText(SqDev(xs[i], m) > t)
    ensures CountYes(marks) == CountAbove(xs, m, t)
  {
    if xs != [] {
      var n := |xs| - 1;
      CountYesMatches(xs[..n], marks[..n], m, t);
    }
  }

  lemma {:induction false} NoYes(marks: seq<string>)
    requires forall i :: 0 <= i < |marks| ==> marks[i] == ""
    ensures CountYes(marks) == 0
  {
    if marks != [] {
      NoYes(marks[..|marks| - 1]);
    }
  }

  /** The threshold |z| > 2 marks fewer than a quarter of a non-empty batch;
      in particular a batch of at most four rows has no outlier at all. */
  lemma FewerThanAQuarterMarked(xs: seq<real>, marks: seq<string>)
    requires |marks| == |xs|
    requires forall i :: 0 <= i < |xs| ==> marks[i] == OutlierText(Outlier(xs, i))
    ensures 4 * CountYes(marks) <= |xs|
    ensures |xs| > 0 ==> 4 * CountYes(marks) < |xs|
    ensures |xs| <= 4 ==> CountYes(marks) == 0
  {
    var v := PopVariance(xs);
    if v > 0.0 {
      var m := Mean(xs);
      assert forall i :: 0 <= i < |xs| ==> marks[i] == OutlierText(SqDev(xs[i], m) > 4.0 * v);
      CountYesMatches(xs, marks, m, 4.0 * v);
      ChebyshevQuarter(xs, m, v);
    } else {
      NoYes(marks);
    }
  }

  // ------------------------------------------------------- the threshold

  /** Four 10s and a 40: mean 16, variance 144, and the 40 sits at z = 2
      exactly, which the strict test does not mark. */
  lemma BoundaryNotFlagged()
    ensures Mean([10.0, 10.0, 10.0, 10.0, 40.0]) == 16.0
    ensures PopVariance([10.0, 10.0, 10.0, 10.0, 40.0]) == 144.0
    ensures ZScoreOf(40.0, 16.0, 12.0) == Finite(2.0)
    ensures !Flagged(ZScoreOf(40.0, 16.0, 12.0))
    ensures !Outlier([10.0, 10.0, 10.0, 10.0, 40.0], 4)
  {
    var a1, a2, a3, a4 := [10.0], [10.0, 10.0], [10.0, 10.0, 10.0], [10.0, 10.0, 10.0, 10.0];
    var xs := a4 + [40.0];
    assert a2[..1] == a1 && a3[..2] == a2 && a4[..3] == a3 && xs[..4] == a4;
    assert Sum(a1) == 10.0;
    assert Sum(a2) == 20.0;
    assert Sum(a3) == 30.0;
    assert Sum(a4) == 40.0;
    assert Sum(xs) == 80.0;
    assert Mean(xs) == 16.0;
    assert SumSqDev(a1, 16.0) == 36.0;
    assert SumSqDev(a2, 16.0) == 72.0;
    assert SumSqDev(a3, 16.0) == 108.0;
    assert SumSqDev(a4, 16.0) == 144.0;
    assert SumSqDev(xs, 16.0) == 720.0;
    assert PopVariance(xs) == 144.0;
    assert xs == [10.0, 10.0, 10.0, 10.0, 40.0];
    DivMul(24.0, 12.0);
  }

  /** Five 10s and a 40: mean 15 and variance 125, and the 40 is marked. */
  lemma AboveBoundaryFlagged()
    ensures Mean([10.0, 10.0, 10.0, 10.0, 10.0, 40.0]) == 15.0
    ensures PopVariance([10.0, 10.0, 10.0, 10.0, 10.0, 40.0]) == 125.0
    ensures Outlier([10.0, 10.0, 10.0, 10.0, 10.0, 40.0], 5)
    ensures !Outlier([10.0, 10.0, 10.0, 10.0, 10.0, 40.0], 0)
  {
    var a1, a2, a3, a4 := [10.0], [10.0, 10.0], [10.0, 10.0, 10.0], [10.0, 10.0, 10.0, 10.0];
    var a5 := a4 + [10.0];
    var xs := a5 + [40.0];
    assert a2[..1] == a1 && a3[..2] == a2 && a4[..3] == a3 && a5[..4] == a4 && xs[..5] == a5;
    assert Sum(a1) == 10.0;
    assert Sum(a2) == 20.0;
    assert Sum(a3) == 30.0;
    assert Sum(a4) == 40.0;
    assert Sum(a5) == 50.0;
    assert Sum(xs) == 90.0;
    assert Mean(xs) == 15.0;
    assert SumSqDev(a1, 15.0) == 25.0;
    assert SumSqDev(a2, 15.0) == 50.0;
    assert SumSqDev(a3, 15.0) == 75.0;
    assert SumSqDev(a4, 15.0) == 100.0;
    assert SumSqDev(a5, 15.0) == 125.0;
    assert SumSqDev(xs, 15.0) == 750.0;
    assert PopVariance(xs) == 125.0;
    assert xs == [10.0, 10.0, 10.0, 10.0, 10.0, 40.0];
  }
}
