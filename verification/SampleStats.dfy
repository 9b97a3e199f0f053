/**
 The statistics of the benchmark comparer (benchmark/pkg/util/util.go) and the test on the
 ratio of the averages (benchmark/pkg/comparer/schemes/avgtest.go), over exact reals.
 */
module SampleStats {
  import opened Common
  import opened Wrappers

  // ----- Numbers as the comparer sees them -----

  /** A quotient of floats. Zeros carry no sign here. */
  datatype Extended = NaN | NegativeInfinity | Finite(value: real) | PositiveInfinity

  function Divide(a: real, b: real): Extended {
    if b != 0.0 then Finite(a / b)
    else if a > 0.0 then PositiveInfinity
    else if a < 0.0 then NegativeInfinity
    else NaN
  }

  /** What times `b` is `a`, or infinite with the sign of `a`, or undefined. */
  predicate IsQuotient(x: Extended, a: real, b: real) {
    match x
    case Finite(q) => b != 0.0 && Product(q, b) == a
    case PositiveInfinity => b == 0.0 && a > 0.0
    case NegativeInfinity => b == 0.0 && a < 0.0
    case NaN => b == 0.0 && a == 0.0
  }

  lemma DivideIsQuotient(a: real, b: real)
    ensures IsQuotient(Divide(a, b), a, b)
  {
  }

  /** Every comparison with NaN fails. */
  predicate AtMost(x: Extended, y: Extended) {
    match (x, y)
    case (NaN, _) => false
    case (_, NaN) => false
    case (Finite(a), Finite(b)) => a <= b
    case (NegativeInfinity, _) => true
    case (_, PositiveInfinity) => true
    case _ => false
  }

  // ----- One pass over a sample -----

  function Sum(s: seq<real>): real {
    if s == [] then 0.0 else Sum(s[..|s| - 1]) + s[|s| - 1]
  }

  function SquareSum(s: seq<real>): real {
    if s == [] then 0.0 else SquareSum(s[..|s| - 1]) + Square(s[|s| - 1])
  }

  function Square(x: real): real {
    Product(x, x)
  }

  lemma ProductPositive(a: real, b: real)
    requires a > 0.0 && b > 0.0
    ensures Product(a, b) > 0.0
  {
  }

  lemma ProductNegated(a: real)
    ensures Product(-a, -a) == Product(a, a) && Product(0.0, 0.0) == 0.0
  {
  }

  lemma SquareSign(x: real)
    ensures Square(x) >= 0.0
    ensures Square(x) == 0.0 <==> x == 0.0
  {
    hide Product;
    ProductNegated(x);
    if x > 0.0 {
      ProductPositive(x, x);
    } else if x < 0.0 {
      ProductPositive(-x, -x);
    }
  }

  function Mean(total: real, n: nat): real
    requires n > 0
  {
    total / n as real
  }

  function Average(s: seq<real>): real
    requires s != []
  {
    Mean(Sum(s), |s|)
  }

  /** The sum of the squared distances from `a`. */
  function Deviations(s: seq<real>, a: real): real {
    if s == [] then 0.0 else Deviations(s[..|s| - 1], a) + Square(s[|s| - 1] - a)
  }

  lemma {:induction false} DeviationsExpand(s: seq<real>, a: real)
    ensures Deviations(s, a) == SquareSum(s) - Product(2.0 * a, Sum(s)) + Product(|s| as real, Square(a))
  {
    if s != [] {
      var x := s[|s| - 1];
      DeviationsExpand(s[..|s| - 1], a);
      SquareOfDifference(x, a);
      ProductSum(2.0 * a, Sum(s[..|s| - 1]), x);
      ProductSum'((|s| - 1) as real, Square(a));
    } else {
      ProductZero(a);
    }
  }

  lemma SquareOfDifference(x: real, a: real)
    ensures Square(x - a) == Square(x) - Product(2.0 * a, x) + Square(a)
  {
  }

  lemma ProductSum(a: real, b: real, c: real)
    ensures Product(a, b + c) == Product(a, b) + Product(a, c)
  {
  }

  lemma ProductSum'(n: real, b: real)
    ensures Product(n + 1.0, b) == Product(n, b) + b
  {
  }

  lemma ProductZero(a: real)
    ensures Product(2.0 * a, 0.0) == 0.0 && Product(0.0, Square(a)) == 0.0
  {
  }

  /** The value under the square root is the mean squared deviation from the average. */
  lemma OnePassIsTwoPass(s: seq<real>)
    requires s != []
    ensures Mean(SquareSum(s), |s|) - Square(Average(s)) == Mean(Deviations(s, Average(s)), |s|)
  {
    var n, a := |s| as real, Average(s);
    DeviationsExpand(s, a);
    MeanIdentity(SquareSum(s), Sum(s), n);
  }

  lemma TwiceProduct(a: real, b: real)
    ensures Product(2.0 * a, b) == 2.0 * Product(a, b)
  {
  }

  lemma MeanIdentity(q: real, t: real, n: real)
    requires n > 0.0
    ensures q / n - Square(t / n) == (q - Product(2.0 * (t / n), t) + Product(n, Square(t / n))) / n
  {
    hide Product;
    var a := t / n;
    QuotientProduct(t, n);
    QuotientProduct(q, n);
    // Both subtrahends are multiples of the same square.
    TwiceProduct(a, t);
    ProductLaws(a, n, a);
    ProductLaws(a, a, n);
    ProductLaws(n, a, a);
    ProductLaws(q / n, Product(a, a), n);
    QuotientIs(q - Product(n, Product(a, a)), n, q / n - Product(a, a));
  }

  ghost predicate AllEqual(s: seq<real>, a: real) {
    forall x :: x in s ==> x == a
  }

  lemma AllEqualStep(s: seq<real>, a: real)
    ensures s == [] ==> AllEqual(s, a)
    ensures s != [] ==> (AllEqual(s, a) <==> AllEqual(s[..|s| - 1], a) && s[|s| - 1] == a)
  {
    if s != [] {
      var n := |s| - 1;
      assert s == s[..n] + [s[n]];
      assert forall x :: x in s <==> x in s[..n] || x == s[n];
      assert s[n] in s;
    }
  }

  /** It is never negative, and zero exactly when all values are the same. */
  lemma {:induction false} DeviationsAreNonNegative(s: seq<real>, a: real)
    ensures Deviations(s, a) >= 0.0
    ensures Deviations(s, a) == 0.0 <==> AllEqual(s, a)
  {
    hide Square, AllEqual;
    AllEqualStep(s, a);
    if s != [] {
      var n := |s| - 1;
      DeviationsAreNonNegative(s[..n], a);
      SquareSign(s[n] - a);
    }
  }

  ghost predicate IsMaximum(s: seq<real>, start: real, m: real) {
    start <= m && (forall x :: x in s ==> x <= m) && (m == start || m in s)
  }

  lemma MaximumSoFar(s: seq<real>, start: real)
    ensures IsMaximum(s[..0], start, start)
  {
  }

  lemma MaximumStep(s: seq<real>, start: real, i: nat, m: real)
    requires i < |s| && IsMaximum(s[..i], start, m)
    ensures IsMaximum(s[..i + 1], start, if m < s[i] then s[i] else m)
  {
    assert s[..i + 1] == s[..i] + [s[i]];
  }

  /**
   The results are written through three pointers; NaN is None. `startMax` is what the third
   one points to beforehand, and the variance is the value whose square root is taken.
   */
  method ComputeSampleStats(sample: seq<real>, startMax: Option<real>)
    returns (avg: Option<real>, variance: Option<real>, maxVal: Option<real>)
    ensures sample == [] ==> avg == variance == maxVal == None
    ensures sample != [] ==> avg == Some(Average(sample)) && avg.value * |sample| as real == Sum(sample)
    ensures sample != [] ==>
      variance == Some(Mean(Deviations(sample, Average(sample)), |sample|)) && variance.value >= 0.0
    ensures sample != [] ==> (maxVal.Some? <==> startMax.Some?)
    ensures sample != [] && startMax.Some? ==> IsMaximum(sample, startMax.value, maxVal.value)
  {
    hide Square, Mean, Deviations, IsMaximum;
    if |sample| == 0 {
      return None, None, None;
    }
    var sum, squareSum := 0.0, 0.0;
    maxVal := startMax;
    if startMax.Some? {
      MaximumSoFar(sample, startMax.value);
    }
    for i := 0 to |sample|
      invariant sum == Sum(sample[..i]) && squareSum == SquareSum(sample[..i])
      invariant maxVal.Some? <==> startMax.Some?
      invariant startMax.Some? ==> IsMaximum(sample[..i], startMax.value, maxVal.value)
    {
      assert sample[..i + 1][..i] == sample[..i];
      sum := sum + sample[i];
      squareSum := squareSum + Square(sample[i]);
      if maxVal.Some? {
        MaximumStep(sample, startMax.value, i, maxVal.value);
        if maxVal.value < sample[i] {
          maxVal := Some(sample[i]);
        }
      }
    }
    assert sample[..|sample|] == sample;
    avg := Some(Mean(sum, |sample|));
    MeanTimesSize(sum, |sample|);
    variance := Some(Mean(squareSum, |sample|) - Square(avg.value));
    OnePassIsTwoPass(sample);
    DeviationsAreNonNegative(sample, Average(sample));
    QuotientIsNonNegative(Deviations(sample, Average(sample)), |sample|);
  }

  lemma MeanTimesSize(total: real, n: nat)
    requires n > 0
    ensures Mean(total, n) * n as real == total
  {
  }

  lemma QuotientIsNonNegative(a: real, n: nat)
    requires a >= 0.0 && n > 0
    ensures Mean(a, n) >= 0.0
  {
  }

  /** The fields start at zero, so the reported maximum is the sample's unless all of it is negative. */
  lemma MaximumExactly(s: seq<real>, m: real)
    requires s != [] && IsMaximum(s, 0.0, m)
    ensures m in s && (forall x :: x in s ==> x <= m) <==> exists x :: x in s && x >= 0.0
  {
  }

  /** A sample of negative values, reported with a maximum of zero. */
  method NegativeSampleHasMaximumZero() returns (maxVal: Option<real>)
    ensures maxVal == Some(0.0)
  {
    var avg, variance;
    avg, variance, maxVal := ComputeSampleStats([-2.0, -1.0], Some(0.0));
  }

  // ----- The test on the averages -----

  /** The ratio of the averages lies between the bound and its inverse. */
  predicate RatioWithin(avgL: real, avgR: real, bound: real) {
    AtMost(Finite(bound), Divide(avgL, avgR)) && AtMost(Divide(avgL, avgR), Divide(1.0, bound))
  }

  lemma ProductLaws(x: real, y: real, z: real)
    ensures Product(Product(x, y), z) == Product(x, Product(y, z))
    ensures Product(x, y) == Product(y, x) && Product(1.0, x) == x
    ensures Product(x - y, z) == Product(x, z) - Product(y, z)
  {
  }

  /** A quotient is what multiplied by the divisor gives the dividend. */
  lemma QuotientProduct(x: real, d: real)
    requires d != 0.0
    ensures Product(x / d, d) == x
  {
  }

  lemma ProductSign(x: real, y: real)
    requires y > 0.0
    ensures Product(x, y) > 0.0 <==> x > 0.0
    ensures Product(x, y) < 0.0 <==> x < 0.0
    ensures Product(x, y) == 0.0 <==> x == 0.0
    ensures Product(x, -y) == -Product(x, y)
  {
    ProductPositive'(x, y);
    ProductPositive'(-x, y);
  }

  lemma ProductPositive'(x: real, y: real)
    requires y > 0.0
    ensures x > 0.0 ==> Product(x, y) > 0.0
    ensures Product(-x, y) == -Product(x, y) && Product(x, -y) == -Product(x, y) && Product(0.0, y) == 0.0
  {
  }

  /** Products by the same number other than zero determine their other factors. */
  lemma ProductCancel(x: real, y: real, z: real)
    requires z != 0.0 && Product(x, z) == Product(y, z)
    ensures x == y
  {
    hide Product;
    ProductLaws(x, y, z);
    if z > 0.0 {
      ProductSign(x - y, z);
    } else {
      ProductSign(x - y, -z);
    }
  }

  lemma QuotientIs(x: real, d: real, y: real)
    requires d != 0.0 && Product(y, d) == x
    ensures x / d == y
  {
    hide Product;
    QuotientProduct(x, d);
    ProductCancel(x / d, y, d);
  }

  lemma ProductByZero(x: real)
    ensures Product(x, 0.0) == 0.0
  {
  }

  lemma ProductOrder(x: real, y: real, z: real)
    requires z != 0.0
    ensures Product(x, z) <= Product(y, z) <==> if z > 0.0 then x <= y else y <= x
  {
    hide Product;
    ProductLaws(x, y, z);
    if z > 0.0 {
      ProductSign(x - y, z);
    } else {
      ProductSign(x - y, -z);
    }
  }

  lemma QuotientAtLeast(bound: real, a: real, b: real)
    requires b != 0.0
    ensures bound <= a / b <==> if b > 0.0 then Product(bound, b) <= a else a <= Product(bound, b)
  {
    hide Product;
    QuotientProduct(a, b);
    ProductOrder(bound, a / b, b);
    ProductOrder(a / b, bound, b);
  }

  lemma QuotientAtMostInverse(bound: real, a: real, b: real)
    requires b != 0.0 && bound != 0.0
    ensures a / b <= 1.0 / bound <==>
            if bound > 0.0 <==> b > 0.0 then Product(bound, a) <= b else b <= Product(bound, a)
  {
    hide Product;
    var q := a / b;
    QuotientProduct(a, b);
    QuotientProduct(1.0, bound);
    ProductOrder(q, 1.0 / bound, bound);
    ProductOrder(1.0 / bound, q, bound);
    // The quotient times the bound, compared with one, is the same comparison times b.
    ProductLaws(q, bound, b);
    ProductLaws(bound, b, q);
    ProductLaws(b, q, bound);
    ProductLaws(bound, a, b);
    ProductLaws(1.0, b, b);
    ProductOrder(Product(q, bound), 1.0, b);
    ProductOrder(1.0, Product(q, bound), b);
    ProductLaws(q, Product(bound, b), b);
    assert Product(Product(q, bound), b) == Product(bound, a);
  }

  /** The averages lie within the bound of each other, without dividing. */
  predicate Close(avgL: real, avgR: real, bound: real) {
    if bound > 0.0 then
      (avgR > 0.0 && Product(bound, avgR) <= avgL && Product(bound, avgL) <= avgR) ||
      (avgR < 0.0 && avgL <= Product(bound, avgR) && avgR <= Product(bound, avgL))
    else if bound == 0.0 then
      (avgR > 0.0 && avgL >= 0.0) || (avgR < 0.0 && avgL <= 0.0) || (avgR == 0.0 && avgL > 0.0)
    else
      (avgR > 0.0 && Product(bound, avgR) <= avgL && avgR <= Product(bound, avgL)) ||
      (avgR < 0.0 && avgL <= Product(bound, avgR) && Product(bound, avgL) <= avgR)
  }

  /** The verdict on the ratio, for all averages and bounds, infinite ratios and undefined ones included. */
  lemma RatioWithinExactly(avgL: real, avgR: real, bound: real)
    ensures RatioWithin(avgL, avgR, bound) <==> Close(avgL, avgR, bound)
  {
    hide Product;
    if avgR != 0.0 {
      QuotientAtLeast(bound, avgL, avgR);
      if bound != 0.0 {
        QuotientAtMostInverse(bound, avgL, avgR);
      } else {
        ProductLaws(0.0, avgR, avgR);
        ProductByZero(avgR);
      }
    }
  }

  /** For positive averages and a positive bound, neither average exceeds the other by too large a factor. */
  lemma RatioWithinMeans(avgL: real, avgR: real, bound: real)
    requires avgL > 0.0 && avgR > 0.0 && bound > 0.0
    ensures RatioWithin(avgL, avgR, bound) <==> Product(bound, avgR) <= avgL && Product(bound, avgL) <= avgR
  {
    RatioWithinExactly(avgL, avgR, bound);
  }

  /** A zero average on one side, a negative one on the other, and a bound that allows every ratio. */
  predicate LosesSign(avgL: real, avgR: real, bound: real) {
    bound == 0.0 && ((avgL == 0.0 && avgR < 0.0) || (avgR == 0.0 && avgL < 0.0))
  }

  /** Swapping the two jobs changes the verdict on the ratio in that one case only. */
  lemma SwapKeepsRatioWithinExactly(avgL: real, avgR: real, bound: real)
    ensures (RatioWithin(avgL, avgR, bound) <==> RatioWithin(avgR, avgL, bound)) <==> !LosesSign(avgL, avgR, bound)
  {
    hide Product, RatioWithin;
    RatioWithinExactly(avgL, avgR, bound);
    RatioWithinExactly(avgR, avgL, bound);
    SignOfProduct(bound, avgL);
    SignOfProduct(bound, avgR);
  }

  lemma SignOfProduct(x: real, y: real)
    ensures Product(x, y) > 0.0 <==> (x > 0.0 && y > 0.0) || (x < 0.0 && y < 0.0)
    ensures Product(x, y) == 0.0 <==> x == 0.0 || y == 0.0
  {
    hide Product;
    ProductByZero(x);
    ProductLaws(x, y, y);
    if y > 0.0 {
      ProductSign(x, y);
    } else if y < 0.0 {
      ProductSign(x, -y);
    }
  }

  ghost predicate MatchedBy(left: seq<real>, right: seq<real>, bound: real, minAvg: real) {
    left == [] || right == [] ||
    RatioWithin(Average(left), Average(right), bound) ||
    (Average(left) < minAvg && Average(right) < minAvg)
  }

  /** The test treats the two jobs alike, but for that case. */
  lemma SwapKeepsMatchedExactly(left: seq<real>, right: seq<real>, bound: real, minAvg: real)
    ensures (MatchedBy(left, right, bound, minAvg) <==> MatchedBy(right, left, bound, minAvg)) <==>
      left == [] || right == [] || !LosesSign(Average(left), Average(right), bound) ||
      (Average(left) < minAvg && Average(right) < minAvg)
  {
    hide RatioWithin, Average, LosesSign;
    if left != [] && right != [] {
      SwapKeepsRatioWithinExactly(Average(left), Average(right), bound);
    }
  }

  lemma AverageOfOne(x: real)
    ensures Average([x]) == x
  {
    assert [x][..0] == [];
    assert Sum([x]) == Sum([]) + x == x;
  }

  /** That case does come up. */
  lemma SwapCanChangeMatched()
    ensures MatchedBy([0.0], [-1.0], 0.0, -5.0) && !MatchedBy([-1.0], [0.0], 0.0, -5.0)
  {
    AverageOfOne(0.0);
    AverageOfOne(-1.0);
    hide Average;
    assert Divide(0.0, -1.0) == Finite(0.0) && Divide(-1.0, 0.0) == NegativeInfinity;
  }

  class MetricComparisonData {
    const leftJobSample: seq<real>
    const rightJobSample: seq<real>
    var avgL: Option<real>
    var avgR: Option<real>
    var avgRatio: Extended
    var varianceL: Option<real>
    var varianceR: Option<real>
    var maxL: Option<real>
    var maxR: Option<real>
    var matched: bool

    constructor (leftJobSample: seq<real>, rightJobSample: seq<real>)
      ensures this.leftJobSample == leftJobSample && this.rightJobSample == rightJobSample
      ensures maxL == maxR == Some(0.0)
    {
      this.leftJobSample, this.rightJobSample := leftJobSample, rightJobSample;
      avgL, avgR, avgRatio := Some(0.0), Some(0.0), Finite(0.0);
      varianceL, varianceR := Some(0.0), Some(0.0);
      maxL, maxR, matched := Some(0.0), Some(0.0), false;
    }

    ghost predicate StatsOf(sample: seq<real>, avg: Option<real>, variance: Option<real>) {
      if sample == [] then avg == variance == None
      else avg == Some(Average(sample)) && variance == Some(Mean(Deviations(sample, Average(sample)), |sample|))
    }

    ghost predicate HasStats()
      reads this
    {
      StatsOf(leftJobSample, avgL, varianceL) && StatsOf(rightJobSample, avgR, varianceR)
    }

    ghost predicate Compared(bound: real, minAvg: real)
      reads this
    {
      HasStats() &&
      (matched <==> MatchedBy(leftJobSample, rightJobSample, bound, minAvg)) &&
      avgRatio == (if leftJobSample == [] || rightJobSample == [] then NaN
                   else Divide(Average(leftJobSample), Average(rightJobSample)))
    }

    method ComputeStats()
      modifies this
      ensures HasStats()
      ensures leftJobSample != [] && old(maxL).Some? ==>
        maxL.Some? && IsMaximum(leftJobSample, old(maxL).value, maxL.value)
      ensures rightJobSample != [] && old(maxR).Some? ==>
        maxR.Some? && IsMaximum(rightJobSample, old(maxR).value, maxR.value)
    {
      avgL, varianceL, maxL := ComputeSampleStats(leftJobSample, maxL);
      avgR, varianceR, maxR := ComputeSampleStats(rightJobSample, maxR);
    }

    method Compare(allowedRatioLowerBound: real, minMetricAvgForCompare: real)
      requires HasStats()
      modifies `matched, `avgRatio
      ensures Compared(allowedRatioLowerBound, minMetricAvgForCompare)
      ensures leftJobSample != [] && rightJobSample != [] ==>
        && IsQuotient(avgRatio, avgL.value, avgR.value)
        && (matched <==>
              || Close(avgL.value, avgR.value, allowedRatioLowerBound)
              || (avgL.value < minMetricAvgForCompare && avgR.value < minMetricAvgForCompare))
      ensures leftJobSample == [] || rightJobSample == [] ==> matched && avgRatio == NaN
    {
      hide Average, Deviations, Divide, AtMost, Close, IsQuotient;
      matched := false;
      if |leftJobSample| == 0 || |rightJobSample| == 0 {
        avgRatio := NaN;
        matched := true;
      } else {
        avgRatio := Divide(avgL.value, avgR.value);
        DivideIsQuotient(avgL.value, avgR.value);
        RatioWithinExactly(avgL.value, avgR.value, allowedRatioLowerBound);
        if AtMost(Finite(allowedRatioLowerBound), avgRatio) && AtMost(avgRatio, Divide(1.0, allowedRatioLowerBound)) {
          matched := true;
        }
        if avgL.value < minMetricAvgForCompare && avgR.value < minMetricAvgForCompare {
          matched := true;
        }
      }
    }
  }

  /** `metrics` lists the entries of the comparison data in the order in which they are walked. */
  method CompareJobsUsingAvgTest(metrics: seq<MetricComparisonData>, allowedRatioLowerBound: real,
                                 minMetricAvgForCompare: real)
    requires forall i, j :: 0 <= i < j < |metrics| ==> metrics[i] != metrics[j]
    modifies set i | 0 <= i < |metrics| :: metrics[i]
    ensures forall i :: 0 <= i < |metrics| ==> metrics[i].Compared(allowedRatioLowerBound, minMetricAvgForCompare)
  {
    for i := 0 to |metrics|
      invariant forall k :: 0 <= k < i ==> metrics[k].HasStats()
    {
      metrics[i].ComputeStats();
    }
    for i := 0 to |metrics|
      invariant forall k :: i <= k < |metrics| ==> metrics[k].HasStats()
      invariant forall k :: 0 <= k < i ==> metrics[k].Compared(allowedRatioLowerBound, minMetricAvgForCompare)
    {
      metrics[i].Compare(allowedRatioLowerBound, minMetricAvgForCompare);
    }
  }
}
