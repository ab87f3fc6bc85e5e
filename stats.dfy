/** The arithmetic of the two-sample comparisons: sums and means of
    shares, the proportion-style standard error, the t ratio and the
    fixed 1.96 confidence interval (short_paper_code.py, lines 94-102,
    135-143, 177-185). */
module Stats {
  import opened Wrappers

  /** Sum of a sequence, left to right. */
  function Sum(xs: seq<real>): real
  {
    if xs == [] then 0.0 else xs[0] + Sum(xs[1..])
  }

  /** Arithmetic mean; undefined (NaN) for an empty sample. */
  function Mean(xs: seq<real>): (r: Option<real>)
    ensures r.None? <==> xs == []
  {
    if xs == [] then None else Some(Sum(xs) / |xs| as real)
  }

  /** Every element lies in [lo, hi]. */
  predicate Within(xs: seq<real>, lo: real, hi: real)
  {
    forall i :: 0 <= i < |xs| ==> lo <= xs[i] <= hi
  }

  lemma {:induction false} SumWithin(xs: seq<real>, lo: real, hi: real)
    requires Within(xs, lo, hi)
    ensures lo * |xs| as real <= Sum(xs) <= hi * |xs| as real
  {
    if xs != [] {
      SumWithin(xs[1..], lo, hi);
      assert lo * |xs| as real == lo + lo * |xs[1..]| as real;
      assert hi * |xs| as real == hi + hi * |xs[1..]| as real;
    }
  }

  /** Dividing by a positive number keeps the order of two reals. */
  lemma QuotientOrder(a: real, b: real, n: real)
    requires n > 0.0
    ensures a <= b <==> a / n <= b / n
    ensures a < b <==> a / n < b / n
  {
    assert a == (a / n) * n && b == (b / n) * n;
    if a / n < b / n {
      assert (a / n) * n < (b / n) * n;
    }
    if a / n == b / n {
      assert (a / n) * n == (b / n) * n;
    }
  }

  /** The mean of a non-empty sample lies between its bounds. */
  lemma MeanWithin(xs: seq<real>, lo: real, hi: real)
    requires xs != [] && Within(xs, lo, hi)
    ensures lo <= Mean(xs).value <= hi
  {
    SumWithin(xs, lo, hi);
    var n := |xs| as real;
    QuotientOrder(lo, Sum(xs), n);
    QuotientOrder(Sum(xs), hi, n);
  }

  /** Every element is strictly above `lo` (or strictly below `hi`). */
  predicate Above(xs: seq<real>, lo: real)
  {
    forall i :: 0 <= i < |xs| ==> xs[i] > lo
  }

  predicate Below(xs: seq<real>, hi: real)
  {
    forall i :: 0 <= i < |xs| ==> xs[i] < hi
  }

  lemma {:induction false} SumAbove(xs: seq<real>, lo: real)
    requires xs != [] && Above(xs, lo)
    ensures Sum(xs) > lo * |xs| as real
  {
    if |xs| > 1 {
      SumAbove(xs[1..], lo);
    }
    assert lo * |xs| as real == lo + lo * |xs[1..]| as real;
  }

  lemma {:induction false} SumBelow(xs: seq<real>, hi: real)
    requires xs != [] && Below(xs, hi)
    ensures Sum(xs) < hi * |xs| as real
  {
    if |xs| > 1 {
      SumBelow(xs[1..], hi);
    }
    assert hi * |xs| as real == hi + hi * |xs[1..]| as real;
  }

  /** A sample strictly above (below) a threshold has its mean strictly
      above (below) it. */
  lemma MeanAboveBelow(xs: seq<real>, c: real)
    requires xs != []
    ensures Above(xs, c) ==> Mean(xs).value > c
    ensures Below(xs, c) ==> Mean(xs).value < c
  {
    var n := |xs| as real;
    if Above(xs, c) {
      SumAbove(xs, c);
    }
    if Below(xs, c) {
      SumBelow(xs, c);
    }
    QuotientOrder(c * n, Sum(xs), n);
    QuotientOrder(Sum(xs), c * n, n);
  }

  // ---------------------------------------------------------------------
  // Two-sample comparison
  // ---------------------------------------------------------------------

  /** The fixed multiplier of the 95% interval. */
  const Z: real := 1.96

  lemma ProductNonNegative(a: real, b: real)
    requires a >= 0.0 && b >= 0.0
    ensures a * b >= 0.0
  {
  }

  /** `m * (1 - m) / n`, one term of the radicand; a zero count gives a
      non-finite value, modelled as undefined. */
  function RadicandTerm(m: real, n: nat): (r: Option<real>)
    ensures r.None? <==> n == 0
    ensures r.Some? && 0.0 <= m <= 1.0 ==> r.value >= 0.0
  {
    if n == 0 then None
    else
      assert 0.0 <= m <= 1.0 ==> m * (1.0 - m) >= 0.0 by {
        if 0.0 <= m <= 1.0 { ProductNonNegative(m, 1.0 - m); }
      }
      Some(m * (1.0 - m) / n as real)
  }

  /** `denominator_1 + denominator_2`: undefined when either mean is NaN or
      either count is zero. */
  function Radicand(meanA: Option<real>, nA: nat, meanB: Option<real>, nB: nat): (r: Option<real>)
    ensures r.Some? <==> meanA.Some? && meanB.Some? && nA > 0 && nB > 0
    ensures r.Some? && 0.0 <= meanA.value <= 1.0 && 0.0 <= meanB.value <= 1.0 ==> r.value >= 0.0
  {
    if meanA.None? || meanB.None? || nA == 0 || nB == 0 then None
    else Some(RadicandTerm(meanA.value, nA).value + RadicandTerm(meanB.value, nB).value)
  }

  /** `math.sqrt` is not modelled as a computation: the caller supplies
      the root, and this says what it must be. */
  predicate IsRoot(root: real, x: real)
  {
    root >= 0.0 && root * root == x
  }

  /** `root` is the square root of the radicand whenever `math.sqrt` would
      return one. */
  predicate RootFor(meanA: Option<real>, nA: nat, meanB: Option<real>, nB: nat, root: real)
  {
    var rad := Radicand(meanA, nA, meanB, nB);
    rad.Some? && rad.value >= 0.0 ==> IsRoot(root, rad.value)
  }

  /** The numbers one comparison reports. */
  datatype TestResult = TestResult(difference: real, se: real, t: Option<real>, lower: real, upper: real)

  /** The scalars a comparison computes with. The overall test starts from
      `Series.mean()` and a boolean `sum()`, both numpy scalars, whose
      division by zero yields infinity or NaN. The leaning tests start
      from the `sum()` of an apply series that mixes floats with `False`,
      an object series whose sum is a Python float, divided by a Python
      `int` from `len`: there, a zero standard error makes `num / den`
      raise `ZeroDivisionError`. */
  datatype Scalars = NumpyScalars | PythonFloats

  /** A comparison either yields numbers, or NaN/infinity propagates from
      an undefined mean or a zero count, or `math.sqrt` raises on a
      negative radicand, or the t ratio divides a Python float by zero. */
  datatype TestOutcome = Computed(result: TestResult) | NonFinite | MathDomainError | ZeroDivisionError

  /** The two-sample test of lines 94-102 (and 135-143, 177-185):
      difference of means, standard error, t ratio and the interval
      `difference -/+ 1.96 * SE`. A zero standard error gives a non-finite
      t (`None`) on numpy scalars and raises on Python floats. */
  function TwoSampleTest(scalars: Scalars, meanA: Option<real>, nA: nat, meanB: Option<real>, nB: nat, root: real): (r: TestOutcome)
    requires RootFor(meanA, nA, meanB, nB, root)
    ensures r.NonFinite? <==> Radicand(meanA, nA, meanB, nB).None?
    ensures r.MathDomainError? <==> Radicand(meanA, nA, meanB, nB).Some? && Radicand(meanA, nA, meanB, nB).value < 0.0
    ensures r.ZeroDivisionError? <==> scalars == PythonFloats && Radicand(meanA, nA, meanB, nB) == Some(0.0)
    ensures r.Computed? ==>
      && r.result.difference == meanA.value - meanB.value
      && IsRoot(r.result.se, Radicand(meanA, nA, meanB, nB).value)
      && r.result.lower == r.result.difference - Z * r.result.se
      && r.result.upper == r.result.difference + Z * r.result.se
      && r.result.lower <= r.result.difference <= r.result.upper
      && (r.result.se > 0.0 <==> r.result.t.Some?)
      && (r.result.t.Some? ==> r.result.t.value * r.result.se == r.result.difference)
  {
    var rad := Radicand(meanA, nA, meanB, nB);
    if rad.None? then NonFinite
    else if rad.value < 0.0 then MathDomainError
    else if rad.value == 0.0 && scalars == PythonFloats then ZeroDivisionError
    else
      var d := meanA.value - meanB.value;
      var se := root;
      var t := if se == 0.0 then None else Some(d / se);
      Computed(TestResult(d, se, t, d - Z * se, d + Z * se))
  }

  /** Means that are shares in [0, 1] never make `math.sqrt` raise: on
      numpy scalars the test is computed exactly when both means are
      defined and both counts are positive; on Python floats it also
      needs a positive radicand. */
  lemma TestComputable(scalars: Scalars, meanA: Option<real>, nA: nat, meanB: Option<real>, nB: nat, root: real)
    requires RootFor(meanA, nA, meanB, nB, root)
    requires meanA.Some? ==> 0.0 <= meanA.value <= 1.0
    requires meanB.Some? ==> 0.0 <= meanB.value <= 1.0
    ensures !TwoSampleTest(scalars, meanA, nA, meanB, nB, root).MathDomainError?
    ensures TwoSampleTest(scalars, meanA, nA, meanB, nB, root).Computed?
        <==> meanA.Some? && meanB.Some? && nA > 0 && nB > 0
             && (scalars == PythonFloats ==> Radicand(meanA, nA, meanB, nB) != Some(0.0))
  {
  }

  /** One radicand term vanishes exactly for a mean of 0 or 1. */
  lemma TermZero(m: real, n: nat)
    requires n > 0 && 0.0 <= m <= 1.0
    ensures RadicandTerm(m, n).value == 0.0 <==> m == 0.0 || m == 1.0
  {
    var x := m * (1.0 - m);
    QuotientOrder(x, 0.0, n as real);
    QuotientOrder(0.0, x, n as real);
    if m != 0.0 && m != 1.0 {
      assert 0.0 < m && 0.0 < 1.0 - m;
      assert x > 0.0;
    }
  }

  /** For means in [0, 1] the standard error is zero exactly when each
      mean is 0 or 1. */
  lemma RadicandZero(meanA: real, nA: nat, meanB: real, nB: nat)
    requires nA > 0 && nB > 0
    requires 0.0 <= meanA <= 1.0 && 0.0 <= meanB <= 1.0
    ensures Radicand(Some(meanA), nA, Some(meanB), nB) == Some(0.0)
        <==> (meanA == 0.0 || meanA == 1.0) && (meanB == 0.0 || meanB == 1.0)
  {
    TermZero(meanA, nA);
    TermZero(meanB, nB);
  }
}
