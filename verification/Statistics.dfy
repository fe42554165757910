/** Statistics of measured samples (MeasurementPolicyEvaluator), over real numbers. */
module Statistics {
  import opened Sequences
  import opened Wrappers

  datatype Sample = Sample(value: real, status: string, warmup: bool, retried: bool)

  datatype Aggregate = COUNT | MINIMUM | MAXIMUM | MEAN | MEDIAN | P90 | P95 | STANDARD_DEVIATION

  datatype Policy = Policy(aggregate: Aggregate, minimumSamples: int, allowedStatuses: seq<string>, includeRetried: bool)

  datatype EvaluationError = NoSamples | InsufficientSamples

  datatype Summary = Summary(count: nat, minimum: real, maximum: real, mean: real, median: real, p90: real, p95: real,
                             standardDeviation: real, decision: real)

  // ---- Sorting -----------------------------------------------------------

  function Insert(s: seq<real>, x: real): (t: seq<real>)
    requires Sorted(s)
    ensures Sorted(t) && |t| == |s| + 1 && t[0] == if s == [] || x <= s[0] then x else s[0]
  {
    if s == [] then [x]
    else if x <= s[0] then [x] + s
    else [s[0]] + Insert(s[1..], x)
  }

  /** sorted(values) */
  function Sort(s: seq<real>): (t: seq<real>)
    ensures Sorted(t) && |t| == |s|
  {
    if s == [] then [] else Insert(Sort(s[1..]), s[0])
  }

  lemma {:induction false} InsertKeeps(s: seq<real>, x: real)
    requires Sorted(s)
    ensures multiset(Insert(s, x)) == multiset(s) + multiset{x}
  {
    if s != [] && x > s[0] {
      InsertKeeps(s[1..], x);
      assert s == [s[0]] + s[1..];
    }
  }

  lemma {:induction false} SortKeeps(s: seq<real>)
    ensures multiset(Sort(s)) == multiset(s)
  {
    if s != [] {
      SortKeeps(s[1..]);
      InsertKeeps(Sort(s[1..]), s[0]);
      assert s == [s[0]] + s[1..];
    }
  }

  lemma SameFirst(s: seq<real>, t: seq<real>)
    requires Sorted(s) && Sorted(t) && multiset(s) == multiset(t) && s != [] && t != []
    ensures s[0] == t[0]
  {
    assert s[0] in multiset(t) && t[0] in multiset(s);
    var i :| 0 <= i < |t| && t[i] == s[0];
    var k :| 0 <= k < |s| && s[k] == t[0];
  }

  lemma DropFirst(s: seq<real>)
    requires s != []
    ensures multiset(s[1..]) == multiset(s) - multiset{s[0]}
  {
    assert s == [s[0]] + s[1..];
  }

  lemma {:induction false} SortedIsUnique(s: seq<real>, t: seq<real>)
    requires Sorted(s) && Sorted(t) && multiset(s) == multiset(t) && |s| == |t|
    ensures s == t
  {
    if s != [] {
      SameFirst(s, t);
      DropFirst(s);
      DropFirst(t);
      SortedIsUnique(s[1..], t[1..]);
      assert s == [s[0]] + s[1..] && t == [t[0]] + t[1..];
    }
  }

  // ---- Percentiles -------------------------------------------------------

  /** The value a fraction `f` of the way from `a` to `b`. */
  function Between(a: real, b: real, f: real): real {
    a + (b - a) * f
  }

  /** index = (len(ordered) - 1) * quantile, its floor and what is left */
  function Position(n: nat, quantile: real): real {
    n as real * quantile
  }

  function Lower(n: nat, quantile: real): (k: nat)
    requires 0.0 <= quantile <= 1.0
    ensures k <= n && k as real <= Position(n, quantile) < k as real + 1.0
  {
    IndexInRange(n, quantile);
    Position(n, quantile).Floor
  }

  function Upper(n: nat, lower: nat): (k: nat)
    requires lower <= n
    ensures lower <= k <= n && (lower < n ==> k == lower + 1)
  {
    if lower + 1 < n then lower + 1 else n
  }

  function Percentile(ordered: seq<real>, quantile: real): (r: Result<real, EvaluationError>)
    requires 0.0 <= quantile <= 1.0
    ensures r.Success? <==> ordered != []
  {
    if ordered == [] then Failure(NoSamples)
    else if |ordered| == 1 then Success(ordered[0])
    else
      var lower := Lower(|ordered| - 1, quantile);
      var upper := Upper(|ordered| - 1, lower);
      Success(Between(ordered[lower], ordered[upper], Position(|ordered| - 1, quantile) - lower as real))
  }

  /** The percentile is the broken line through the samples: where the position lies between sample j and the next
      one, it is that far along the way between them. */
  lemma PercentileIsPiecewiseLinear(ordered: seq<real>, quantile: real, j: nat)
    requires 0.0 <= quantile <= 1.0 && j + 1 < |ordered|
    requires j as real <= Position(|ordered| - 1, quantile) <= j as real + 1.0
    ensures Percentile(ordered, quantile) ==
            Success(Between(ordered[j], ordered[j + 1], Position(|ordered| - 1, quantile) - j as real))
  {
    var position, lower := Position(|ordered| - 1, quantile), Lower(|ordered| - 1, quantile);
    var upper := Upper(|ordered| - 1, lower);
    assert lower == j || (lower == j + 1 && position == j as real + 1.0);
    assert Percentile(ordered, quantile) == Success(Between(ordered[lower], ordered[upper], position - lower as real));
    assert lower == j ==> upper == j + 1;
    assert Between(ordered[j], ordered[j + 1], 1.0) == ordered[j + 1];
    assert Between(ordered[lower], ordered[upper], 0.0) == ordered[lower];
    assert lower == j + 1 ==> position - lower as real == 0.0 && position - j as real == 1.0;
    assert Between(ordered[lower], ordered[upper], position - lower as real) ==
           Between(ordered[j], ordered[j + 1], position - j as real) by {
      hide Between, Position, Lower, Upper;
    }
  }

  lemma ProductNotNegative(a: real, b: real)
    requires a >= 0.0 && b >= 0.0
    ensures a * b >= 0.0
  {
  }

  lemma ProductGrows(a: real, x: real, y: real)
    requires a >= 0.0 && x <= y
    ensures a * x <= a * y
  {
    ProductNotNegative(a, y - x);
    assert a * (y - x) == a * y - a * x;
  }

  lemma IndexInRange(n: nat, quantile: real)
    requires 0.0 <= quantile <= 1.0
    ensures 0.0 <= Position(n, quantile) <= n as real
  {
    ProductNotNegative(n as real, quantile);
    ProductGrows(n as real, quantile, 1.0);
  }

  lemma BetweenBounds(a: real, b: real, f: real)
    requires a <= b && 0.0 <= f <= 1.0
    ensures a <= Between(a, b, f) <= b
  {
    ProductNotNegative(b - a, f);
    ProductGrows(b - a, f, 1.0);
  }

  lemma BetweenGrows(a: real, b: real, f: real, g: real)
    requires a <= b && f <= g
    ensures Between(a, b, f) <= Between(a, b, g)
  {
    ProductGrows(b - a, f, g);
  }

  lemma BetweenLarger(a: real, b: real, c: real, d: real, f: real)
    requires a <= c && b <= d && 0.0 <= f <= 1.0
    ensures Between(a, b, f) <= Between(c, d, f)
  {
    ProductNotNegative(c - a, 1.0 - f);
    ProductNotNegative(d - b, f);
    assert Between(c, d, f) - Between(a, b, f) == (c - a) * (1.0 - f) + (d - b) * f;
  }

  /** Every percentile lies between the samples on either side of its position. */
  lemma PercentileNeighbours(ordered: seq<real>, quantile: real)
    requires Sorted(ordered) && |ordered| > 1 && 0.0 <= quantile <= 1.0
    ensures var lower := Lower(|ordered| - 1, quantile);
            && ordered[lower] <= Percentile(ordered, quantile).value
            && forall k :: lower < k < |ordered| ==> Percentile(ordered, quantile).value <= ordered[k]
  {
    var lower := Lower(|ordered| - 1, quantile);
    var upper := Upper(|ordered| - 1, lower);
    hide Lower, Upper, Position;
    BetweenBounds(ordered[lower], ordered[upper], Position(|ordered| - 1, quantile) - lower as real);
    var value := Between(ordered[lower], ordered[upper], Position(|ordered| - 1, quantile) - lower as real);
    assert Percentile(ordered, quantile) == Success(value);
    hide Between, Percentile;
    forall k | lower < k < |ordered| ensures value <= ordered[k] {
      assert lower < |ordered| - 1 && upper == lower + 1;
      assert upper == k || ordered[upper] <= ordered[k];
    }
  }

  /** A percentile lies between the least and the greatest sample. */
  lemma PercentileInRange(ordered: seq<real>, quantile: real)
    requires Sorted(ordered) && ordered != [] && 0.0 <= quantile <= 1.0
    ensures ordered[0] <= Percentile(ordered, quantile).value <= ordered[|ordered| - 1]
  {
    if |ordered| > 1 {
      var lower := Lower(|ordered| - 1, quantile);
      var upper := Upper(|ordered| - 1, lower);
      hide Lower, Upper, Position;
      BetweenBounds(ordered[lower], ordered[upper], Position(|ordered| - 1, quantile) - lower as real);
      hide Between;
    }
  }

  /** Percentiles grow with the quantile. */
  lemma PercentileGrows(ordered: seq<real>, p: real, q: real)
    requires Sorted(ordered) && ordered != [] && 0.0 <= p <= q <= 1.0
    ensures Percentile(ordered, p).value <= Percentile(ordered, q).value
  {
    if |ordered| > 1 {
      var n := |ordered| - 1;
      PositionGrows(n, p, q);
      PercentileNeighbours(ordered, p);
      PercentileNeighbours(ordered, q);
      var lower, upper := Lower(n, p), Upper(n, Lower(n, p));
      hide Lower, Upper, Position;
      if lower == Lower(n, q) {
        BetweenGrows(ordered[lower], ordered[upper], Position(n, p) - lower as real, Position(n, q) - lower as real);
      }
      hide Between;
    }
  }

  lemma PositionGrows(n: nat, p: real, q: real)
    requires 0.0 <= p <= q <= 1.0
    ensures Position(n, p) <= Position(n, q) && Lower(n, p) <= Lower(n, q)
  {
    ProductGrows(n as real, p, q);
  }

  /** Percentiles grow with the samples. */
  lemma PercentileOfLarger(ordered: seq<real>, larger: seq<real>, quantile: real)
    requires |ordered| == |larger| > 0 && 0.0 <= quantile <= 1.0
    requires forall i :: 0 <= i < |ordered| ==> ordered[i] <= larger[i]
    ensures Percentile(ordered, quantile).value <= Percentile(larger, quantile).value
  {
    if |ordered| > 1 {
      var lower := Lower(|ordered| - 1, quantile);
      var upper := Upper(|ordered| - 1, lower);
      hide Lower, Upper, Position;
      BetweenLarger(ordered[lower], ordered[upper], larger[lower], larger[upper],
                    Position(|ordered| - 1, quantile) - lower as real);
      hide Between;
    }
  }

  // ---- Other statistics --------------------------------------------------

  function Sum(s: seq<real>): real {
    if s == [] then 0.0 else s[0] + Sum(s[1..])
  }

  /** statistics.median of sorted values */
  function Median(ordered: seq<real>): real
    requires ordered != []
  {
    var n := |ordered|;
    if n % 2 == 1 then ordered[n / 2] else (ordered[n / 2 - 1] + ordered[n / 2]) / 2.0
  }

  /** The median is the percentile in the middle. */
  lemma MedianIsMiddle(ordered: seq<real>)
    requires ordered != []
    ensures Percentile(ordered, 0.5) == Success(Median(ordered))
  {
    if |ordered| > 1 {
      var n := |ordered| - 1;
      MiddlePosition(n);
      var lower, upper := Lower(n, 0.5), Upper(n, Lower(n, 0.5));
      hide Lower, Upper, Position;
      if n % 2 == 0 {
        assert Between(ordered[lower], ordered[upper], 0.0) == ordered[lower];
      } else {
        assert Between(ordered[lower], ordered[upper], 0.5) == (ordered[lower] + ordered[upper]) / 2.0;
      }
    }
  }

  lemma MiddlePosition(n: nat)
    ensures Lower(n, 0.5) == n / 2
    ensures Position(n, 0.5) - (n / 2) as real == if n % 2 == 0 then 0.0 else 0.5
  {
    assert n == 2 * (n / 2) + n % 2;
    assert Position(n, 0.5) == (n / 2) as real + (n % 2) as real * 0.5;
  }

  lemma {:induction false} SumBounds(s: seq<real>, low: real, high: real)
    requires forall i :: 0 <= i < |s| ==> low <= s[i] <= high
    ensures low * |s| as real <= Sum(s) <= high * |s| as real
  {
    if s != [] {
      SumBounds(s[1..], low, high);
      assert low * |s| as real == low * (|s| - 1) as real + low;
      assert high * |s| as real == high * (|s| - 1) as real + high;
    }
  }

  lemma {:induction false} SumInsert(s: seq<real>, x: real)
    requires Sorted(s)
    ensures Sum(Insert(s, x)) == Sum(s) + x
  {
    if s != [] && x > s[0] {
      SumInsert(s[1..], x);
      assert Insert(s, x)[1..] == Insert(s[1..], x);
    } else {
      assert Insert(s, x)[1..] == s;
    }
  }

  lemma {:induction false} SumSort(s: seq<real>)
    ensures Sum(Sort(s)) == Sum(s)
  {
    if s != [] {
      SumSort(s[1..]);
      SumInsert(Sort(s[1..]), s[0]);
    }
  }

  lemma LessIfProductLess(x: real, y: real, n: real)
    requires n > 0.0
    ensures x * n <= y * n <==> x <= y
  {
    if x <= y { ProductGrows(n, x, y); }
    if y < x { ProductPositive(n, x - y); }
    assert n * (x - y) == x * n - y * n;
  }

  lemma ProductPositive(a: real, b: real)
    requires a > 0.0 && b > 0.0
    ensures a * b > 0.0
  {
  }

  lemma DivideBounds(low: real, sum: real, high: real, n: real)
    requires n > 0.0 && low * n <= sum <= high * n
    ensures low <= sum / n <= high
  {
    var mean := sum / n;
    assert mean * n == sum;
    LessIfProductLess(low, mean, n);
    LessIfProductLess(mean, high, n);
  }

  // ---- The standard deviation --------------------------------------------

  function Product(a: real, b: real): real {
    a * b
  }

  function Square(x: real): real {
    Product(x, x)
  }

  /** The sum of the squared distances from `c`. */
  function Scatter(s: seq<real>, c: real): real {
    if s == [] then 0.0 else Square(s[0] - c) + Scatter(s[1..], c)
  }

  function Mean(s: seq<real>): real
    requires s != []
  {
    Sum(s) / |s| as real
  }

  /** statistics.pvariance */
  function Variance(s: seq<real>): real
    requires s != []
  {
    Scatter(s, Mean(s)) / |s| as real
  }

  lemma {:induction false} ScatterInsert(s: seq<real>, x: real, c: real)
    requires Sorted(s)
    ensures Scatter(Insert(s, x), c) == Scatter(s, c) + Square(x - c)
  {
    if s != [] && x > s[0] {
      ScatterInsert(s[1..], x, c);
      assert Insert(s, x)[1..] == Insert(s[1..], x);
    } else {
      assert Insert(s, x)[1..] == s;
    }
    hide Square;
  }

  lemma {:induction false} ScatterSort(s: seq<real>, c: real)
    ensures Scatter(Sort(s), c) == Scatter(s, c)
  {
    if s != [] {
      ScatterSort(s[1..], c);
      ScatterInsert(Sort(s[1..]), s[0], c);
    }
    hide Square;
  }

  lemma ProductSign(a: real, b: real)
    ensures a > 0.0 && b > 0.0 ==> Product(a, b) > 0.0
    ensures Product(-a, -b) == Product(a, b) && Product(0.0, b) == 0.0
  {
    if a > 0.0 && b > 0.0 { ProductPositive(a, b); }
  }

  lemma SquareNotNegative(x: real)
    ensures Square(x) >= 0.0 && (Square(x) == 0.0 <==> x == 0.0)
  {
    hide Product;
    ProductSign(x, x);
    ProductSign(-x, -x);
  }

  lemma {:induction false} ScatterNotNegative(s: seq<real>, c: real)
    ensures Scatter(s, c) >= 0.0
    ensures Scatter(s, c) == 0.0 <==> forall i :: 0 <= i < |s| ==> s[i] == c
  {
    if s != [] {
      ScatterNotNegative(s[1..], c);
      SquareNotNegative(s[0] - c);
      if s[0] == c && forall i :: 0 <= i < |s[1..]| ==> s[1..][i] == c {
        forall i | 0 <= i < |s| ensures s[i] == c { if i > 0 { assert s[i] == s[1..][i - 1]; } }
      }
    }
    hide Square;
  }

  /** The square of a distance from `c`, for a value between two bounds. */
  lemma SquareBound(x: real, low: real, high: real, c: real)
    requires low <= x <= high
    ensures Square(x - c) <= (low + high - 2.0 * c) * x + (c * c - low * high)
  {
    ProductNotNegative(x - low, high - x);
    assert (x - low) * (high - x) == (low + high) * x - low * high - x * x;
    assert Square(x - c) == x * x - 2.0 * c * x + c * c;
    assert (low + high - 2.0 * c) * x == (low + high) * x - 2.0 * c * x;
  }

  lemma {:induction false} ScatterBound(s: seq<real>, low: real, high: real, c: real)
    requires forall i :: 0 <= i < |s| ==> low <= s[i] <= high
    ensures Scatter(s, c) <= (low + high - 2.0 * c) * Sum(s) + |s| as real * (c * c - low * high)
  {
    if s != [] {
      ScatterBound(s[1..], low, high, c);
      SquareBound(s[0], low, high, c);
      hide Square;
      BoundStep(low + high - 2.0 * c, c * c - low * high, s[0], Sum(s[1..]), |s[1..]| as real);
    }
  }

  lemma BoundStep(a: real, b: real, x: real, sum: real, n: real)
    ensures a * (x + sum) + (n + 1.0) * b == (a * x + b) + (a * sum + n * b)
  {
  }

  lemma MeanBounds(s: seq<real>, low: real, high: real)
    requires s != [] && forall i :: 0 <= i < |s| ==> low <= s[i] <= high
    ensures low <= Mean(s) <= high
  {
    hide Sum;
    SumBounds(s, low, high);
    DivideBounds(low, Sum(s), high, |s| as real);
  }

  lemma BoundFactors(low: real, high: real, mean: real, n: real)
    ensures (low + high - 2.0 * mean) * (mean * n) + n * (mean * mean - low * high) ==
            Product(high - mean, mean - low) * n
  {
    assert (low + high - 2.0 * mean) * (mean * n) == ((low + high - 2.0 * mean) * mean) * n;
    assert (low + high - 2.0 * mean) * mean + (mean * mean - low * high) == Product(high - mean, mean - low);
  }

  lemma MeanTimes(sum: real, n: real)
    requires n > 0.0
    ensures sum / n * n == sum && (sum / n == 0.0 <==> sum == 0.0)
  {
  }

  lemma ScatterAtMean(s: seq<real>, low: real, high: real)
    requires s != [] && forall i :: 0 <= i < |s| ==> low <= s[i] <= high
    ensures Scatter(s, Mean(s)) <= Product(high - Mean(s), Mean(s) - low) * |s| as real
  {
    hide Sum, Scatter, Product;
    MeanTimes(Sum(s), |s| as real);
    ScatterBound(s, low, high, Mean(s));
    BoundFactors(low, high, Mean(s), |s| as real);
    hide Mean;
  }

  /** The variance is never negative, zero exactly where all samples are equal, and at most the distance of the
      mean from the greatest sample times that from the least. */
  lemma VarianceBounds(s: seq<real>, low: real, high: real)
    requires s != [] && forall i :: 0 <= i < |s| ==> low <= s[i] <= high
    ensures 0.0 <= Variance(s) <= Product(high - Mean(s), Mean(s) - low)
    ensures Variance(s) == 0.0 <==> forall i, j :: 0 <= i < j < |s| ==> s[i] == s[j]
  {
    hide Sum, Scatter, Product, Mean;
    ScatterNotNegative(s, Mean(s));
    ScatterAtMean(s, low, high);
    AllEqualIsMean(s);
    DivideBounds(0.0, Scatter(s, Mean(s)), Product(high - Mean(s), Mean(s) - low), |s| as real);
    MeanTimes(Scatter(s, Mean(s)), |s| as real);
  }

  lemma AllEqualIsMean(s: seq<real>)
    requires s != []
    ensures (forall i, j :: 0 <= i < j < |s| ==> s[i] == s[j]) <==> forall i :: 0 <= i < |s| ==> s[i] == Mean(s)
  {
    if forall i, j :: 0 <= i < j < |s| ==> s[i] == s[j] {
      assert forall i :: 0 <= i < |s| ==> s[0] <= s[i] <= s[0];
      MeanBounds(s, s[0], s[0]);
    }
    hide Sum, Mean;
  }

  lemma DifferenceOfSquares(a: real, b: real)
    ensures Product(a - b, a + b) == Square(a) - Square(b)
  {
  }

  lemma SquareGrows(a: real, b: real)
    requires a > b >= 0.0
    ensures Square(a) > Square(b)
  {
    hide Product;
    DifferenceOfSquares(a, b);
    ProductSign(a - b, a + b);
  }

  // ---- evaluate ----------------------------------------------------------

  predicate Eligible(s: Sample, policy: Policy) {
    !s.warmup && s.status in policy.allowedStatuses && (s.retried ==> policy.includeRetried)
  }

  function EligibleValues(samples: seq<Sample>, policy: Policy): seq<real> {
    if samples == [] then []
    else
      var last := samples[|samples| - 1];
      EligibleValues(samples[..|samples| - 1], policy) + if Eligible(last, policy) then [last.value] else []
  }

  /** `root` is the square root pstdev takes. */
  function SummaryOf(values: seq<real>, aggregate: Aggregate, root: real -> real): Summary
    requires values != []
  {
    var ordered := Sort(values);
    var mean, deviation := Mean(values), root(Variance(values));
    var p90, p95 := Percentile(ordered, 0.90).value, Percentile(ordered, 0.95).value;
    var minimum, maximum := ordered[0], ordered[|ordered| - 1];
    var decision := match aggregate
      case COUNT => |values| as real
      case MINIMUM => minimum
      case MAXIMUM => maximum
      case MEAN => mean
      case MEDIAN => Median(ordered)
      case P90 => p90
      case P95 => p95
      case STANDARD_DEVIATION => deviation;
    Summary(|values|, minimum, maximum, mean, Median(ordered), p90, p95, deviation, decision)
  }

  /** min(values) */
  function Least(s: seq<real>): (r: real)
    requires s != []
    ensures r in s && forall i :: 0 <= i < |s| ==> r <= s[i]
  {
    if |s| == 1 then s[0]
    else
      var rest := Least(s[1..]);
      assert forall i :: 1 <= i < |s| ==> s[i] == s[1..][i - 1];
      if s[0] <= rest then s[0] else rest
  }

  /** max(values) */
  function Greatest(s: seq<real>): (r: real)
    requires s != []
    ensures r in s && forall i :: 0 <= i < |s| ==> s[i] <= r
  {
    if |s| == 1 then s[0]
    else
      var rest := Greatest(s[1..]);
      assert forall i :: 1 <= i < |s| ==> s[i] == s[1..][i - 1];
      if rest <= s[0] then s[0] else rest
  }

  lemma {:induction false} EligibleAre(samples: seq<Sample>, policy: Policy)
    ensures forall x :: x in EligibleValues(samples, policy) <==>
              exists i :: 0 <= i < |samples| && samples[i].value == x && samples[i].warmup == false
                          && samples[i].status in policy.allowedStatuses
                          && (samples[i].retried == false || policy.includeRetried)
  {
    if samples != [] { EligibleAre(samples[..|samples| - 1], policy); }
  }

  /** The loop of evaluate that drops the samples the policy does not want: warm-up samples, other statuses, and
      retried ones unless it includes them. */
  method Candidates(samples: seq<Sample>, policy: Policy) returns (values: seq<real>)
    ensures values == EligibleValues(samples, policy)
    ensures forall x :: x in values <==>
              exists i :: 0 <= i < |samples| && samples[i].value == x && samples[i].warmup == false
                          && samples[i].status in policy.allowedStatuses
                          && (samples[i].retried == false || policy.includeRetried)
  {
    values := [];
    for i := 0 to |samples|
      invariant values == EligibleValues(samples[..i], policy)
    {
      assert samples[..i + 1][..i] == samples[..i];
      var sample := samples[i];
      if sample.warmup { continue; }
      if sample.status !in policy.allowedStatuses { continue; }
      if sample.retried && !policy.includeRetried { continue; }
      values := values + [sample.value];
    }
    assert samples[..|samples|] == samples;
    EligibleAre(samples, policy);
  }

  /** The statistics of the eligible samples, or an error where there are fewer than the policy asks for. */
  method Evaluate(samples: seq<Sample>, policy: Policy, root: real -> real)
    returns (r: Result<Summary, EvaluationError>)
    requires policy.minimumSamples >= 1
    ensures r == if |EligibleValues(samples, policy)| < policy.minimumSamples then Failure(InsufficientSamples)
                 else Success(SummaryOf(EligibleValues(samples, policy), policy.aggregate, root))
  {
    hide Percentile, Median, Sort, Sum, Variance, EligibleValues, Least, Greatest;
    var values := Candidates(samples, policy);
    if |values| < policy.minimumSamples { return Failure(InsufficientSamples); }
    var ordered := Sort(values);
    var p90, p95 := Percentile(ordered, 0.90).value, Percentile(ordered, 0.95).value;
    var mean, deviation := Mean(values), root(Variance(values));
    var low, high := Least(values), Greatest(values);
    ExtremesOfSorted(values, low, high);
    var decision := match policy.aggregate
      case COUNT => |values| as real
      case MINIMUM => low
      case MAXIMUM => high
      case MEAN => mean
      case MEDIAN => Median(ordered)
      case P90 => p90
      case P95 => p95
      case STANDARD_DEVIATION => deviation;
    r := Success(Summary(|values|, low, high, mean, Median(ordered), p90, p95, deviation, decision));
  }

  lemma ExtremesOfSorted(values: seq<real>, low: real, high: real)
    requires low in values && high in values && forall i :: 0 <= i < |values| ==> low <= values[i] <= high
    ensures Sort(values) != [] && Sort(values)[0] == low && Sort(values)[|values| - 1] == high
  {
    hide Sort;
    var ordered := Sort(values);
    SortKeeps(values);
    assert low in multiset(ordered) && high in multiset(ordered);
    var i :| 0 <= i < |ordered| && ordered[i] == low;
    var k :| 0 <= k < |ordered| && ordered[k] == high;
    assert ordered[0] in multiset(values) && ordered[|ordered| - 1] in multiset(values);
  }

  lemma PercentileAt(ordered: seq<real>, quantile: real, j: nat, place: real)
    requires 0.0 <= quantile <= 1.0 && j + 1 < |ordered|
    requires Position(|ordered| - 1, quantile) == j as real + place && 0.0 <= place <= 1.0
    ensures Percentile(ordered, quantile) == Success(ordered[j] + Product(ordered[j + 1] - ordered[j], place))
  {
    hide Percentile, Position, Between, Product;
    PercentileIsPiecewiseLinear(ordered, quantile, j);
    assert Position(|ordered| - 1, quantile) - j as real == place;
    BetweenIsOnLine(ordered[j], ordered[j + 1], place);
  }

  lemma BetweenIsOnLine(a: real, b: real, f: real)
    ensures Between(a, b, f) == a + Product(b - a, f)
  {
  }

  lemma SingleSample(values: seq<real>, quantile: real)
    requires |values| == 1 && 0.0 <= quantile <= 1.0
    ensures Percentile(Sort(values), quantile) == Success(values[0])
  {
    assert values[1..] == [] && Sort([]) == [];
    assert Sort(values) == Insert([], values[0]) == [values[0]];
  }

  lemma Tenths(last: nat, j: nat)
    requires 10 * j <= 9 * last <= 10 * (j + 1)
    ensures 0.0 <= (9 * last - 10 * j) as real / 10.0 <= 1.0
    ensures Position(last, 0.90) == j as real + (9 * last - 10 * j) as real / 10.0
  {
  }

  lemma Twentieths(last: nat, j: nat)
    requires 20 * j <= 19 * last <= 20 * (j + 1)
    ensures 0.0 <= (19 * last - 20 * j) as real / 20.0 <= 1.0
    ensures Position(last, 0.95) == j as real + (19 * last - 20 * j) as real / 20.0
  {
  }

  /** P90 lies nine tenths of the way from the least sample to the greatest, counted in samples: on the straight line
      between the two samples next to that place. */
  lemma P90IsAt(values: seq<real>, aggregate: Aggregate, root: real -> real, j: nat)
    requires |values| == 1 || (j + 1 < |values| && 10 * j <= 9 * (|values| - 1) <= 10 * (j + 1))
    ensures var s, ordered, last := SummaryOf(values, aggregate, root), Sort(values), |values| - 1;
            s.p90 == if last == 0 then values[0]
                     else ordered[j] + Product(ordered[j + 1] - ordered[j], (9 * last - 10 * j) as real / 10.0)
  {
    hide Sort, Variance, Percentile, Median, Mean, Product;
    var last := |values| - 1;
    if last == 0 {
      SingleSample(values, 0.90);
    } else {
      Tenths(last, j);
      hide Position;
      PercentileAt(Sort(values), 0.90, j, (9 * last - 10 * j) as real / 10.0);
    }
  }

  /** P95 lies nineteen twentieths of the way. */
  lemma P95IsAt(values: seq<real>, aggregate: Aggregate, root: real -> real, j: nat)
    requires |values| == 1 || (j + 1 < |values| && 20 * j <= 19 * (|values| - 1) <= 20 * (j + 1))
    ensures var s, ordered, last := SummaryOf(values, aggregate, root), Sort(values), |values| - 1;
            s.p95 == if last == 0 then values[0]
                     else ordered[j] + Product(ordered[j + 1] - ordered[j], (19 * last - 20 * j) as real / 20.0)
  {
    hide Sort, Variance, Percentile, Median, Mean, Product;
    var last := |values| - 1;
    if last == 0 {
      SingleSample(values, 0.95);
    } else {
      Twentieths(last, j);
      hide Position;
      PercentileAt(Sort(values), 0.95, j, (19 * last - 20 * j) as real / 20.0);
    }
  }

  /** Each aggregate names its own statistic, and the extremes and the mean are those of the samples. */
  lemma DecisionIsNamed(values: seq<real>, aggregate: Aggregate, root: real -> real)
    requires values != []
    ensures var s := SummaryOf(values, aggregate, root);
            && s.count == |values| && s.minimum in values && s.maximum in values
            && (forall i :: 0 <= i < |values| ==> s.minimum <= values[i] <= s.maximum)
            && Product(s.mean, |values| as real) == Sum(values)
            && s.decision == match aggregate
               case COUNT => |values| as real
               case MINIMUM => s.minimum
               case MAXIMUM => s.maximum
               case MEAN => s.mean
               case MEDIAN => s.median
               case P90 => s.p90
               case P95 => s.p95
               case STANDARD_DEVIATION => s.standardDeviation
  {
    hide Sort, Variance, Percentile, Median, Sum, Mean, Product;
    SamplesInRange(values);
    SortKeeps(values);
    MeanIsShare(values);
    assert Sort(values)[0] in multiset(values) && Sort(values)[|values| - 1] in multiset(values);
  }

  lemma MeanIsShare(values: seq<real>)
    requires values != []
    ensures Product(Mean(values), |values| as real) == Sum(values)
  {
    hide Sum;
  }

  /** The statistics are in order. */
  lemma SummaryInOrder(values: seq<real>, aggregate: Aggregate, root: real -> real)
    requires values != []
    ensures var s := SummaryOf(values, aggregate, root);
            && s.minimum <= s.median <= s.p90 <= s.p95 <= s.maximum
            && s.minimum <= s.mean <= s.maximum
            && (aggregate != COUNT && aggregate != STANDARD_DEVIATION ==> s.minimum <= s.decision <= s.maximum)
  {
    var ordered := Sort(values);
    MedianIsMiddle(ordered);
    PercentileInRange(ordered, 0.5);
    PercentileInRange(ordered, 0.95);
    PercentileGrows(ordered, 0.5, 0.90);
    PercentileGrows(ordered, 0.90, 0.95);
    MeanInRange(values);
    hide Percentile, Median, Sort, Sum, Variance;
  }

  /** The standard deviation is at most the range, and zero exactly where there is none. */
  lemma DeviationInRange(values: seq<real>, aggregate: Aggregate, root: real -> real)
    requires values != [] && root(Variance(values)) >= 0.0 && Square(root(Variance(values))) == Variance(values)
    ensures var s := SummaryOf(values, aggregate, root);
            && 0.0 <= s.standardDeviation <= s.maximum - s.minimum
            && Square(s.standardDeviation) <= Product(s.maximum - s.mean, s.mean - s.minimum)
            && (s.standardDeviation == 0.0 <==> s.minimum == s.maximum)
  {
    hide Percentile, Median, Sort, Sum, Variance, Mean, Square, Product;
    var low, high := Sort(values)[0], Sort(values)[|values| - 1];
    SamplesInRange(values);
    VarianceBounds(values, low, high);
    MeanInRange(values);
    EqualExtremes(values);
    RootInRange(root(Variance(values)), low, Mean(values), high);
  }

  /** It is that of the whole population: its square is the mean square of the distances from the mean. */
  lemma DeviationIsMeanSquare(values: seq<real>, aggregate: Aggregate, root: real -> real)
    requires values != [] && Square(root(Variance(values))) == Variance(values)
    ensures var s := SummaryOf(values, aggregate, root);
            Product(Square(s.standardDeviation), |values| as real) == Scatter(values, s.mean)
  {
    hide Percentile, Median, Sort, Sum, Variance, Mean, Square, Product, Scatter;
    VarianceIsShare(values);
  }

  lemma VarianceIsShare(values: seq<real>)
    requires values != []
    ensures Product(Variance(values), |values| as real) == Scatter(values, Mean(values))
  {
    hide Scatter, Mean;
  }

  lemma RootInRange(deviation: real, low: real, mean: real, high: real)
    requires deviation >= 0.0 && low <= mean <= high && Square(deviation) <= Product(high - mean, mean - low)
    ensures deviation <= high - low && (Square(deviation) == 0.0 <==> deviation == 0.0)
  {
    SquareNotNegative(deviation);
    ProductsBelow(high - mean, mean - low);
    assert (high - mean) + (mean - low) == high - low;
    if deviation > high - low { SquareGrows(deviation, high - low); }
    hide Square, Product;
  }

  lemma ProductsBelow(a: real, b: real)
    requires a >= 0.0 && b >= 0.0
    ensures Product(a, b) <= Square(a + b)
  {
    ProductNotNegative(a, a);
    ProductNotNegative(a, b);
    ProductNotNegative(b, b);
    assert Square(a + b) == a * a + 2.0 * (a * b) + b * b;
  }

  lemma SamplesInRange(values: seq<real>)
    requires values != []
    ensures forall i :: 0 <= i < |values| ==> Sort(values)[0] <= values[i] <= Sort(values)[|values| - 1]
  {
    hide Sort;
    SortKeeps(values);
    forall i | 0 <= i < |values| ensures Sort(values)[0] <= values[i] <= Sort(values)[|values| - 1] {
      assert values[i] in multiset(Sort(values));
    }
  }

  lemma EqualExtremes(values: seq<real>)
    requires values != []
    ensures Sort(values)[0] == Sort(values)[|values| - 1] <==>
            forall i, j :: 0 <= i < j < |values| ==> values[i] == values[j]
  {
    hide Sort;
    SamplesInRange(values);
    SortKeeps(values);
    var low, high := Sort(values)[0], Sort(values)[|values| - 1];
    assert low in multiset(values) && high in multiset(values);
  }

  lemma MeanInRange(values: seq<real>)
    requires values != []
    ensures Sort(values)[0] <= Mean(values) <= Sort(values)[|values| - 1]
  {
    hide Sort, Mean;
    SamplesInRange(values);
    MeanBounds(values, Sort(values)[0], Sort(values)[|values| - 1]);
  }

  /** And none of them depends on the order of the samples. */
  lemma SummaryHasNoOrder(values: seq<real>, other: seq<real>, aggregate: Aggregate, root: real -> real)
    requires values != [] && multiset(values) == multiset(other)
    ensures other != [] && SummaryOf(values, aggregate, root) == SummaryOf(other, aggregate, root)
  {
    assert |multiset(values)| == |values| && |multiset(other)| == |other|;
    SortKeeps(values);
    SortKeeps(other);
    SortedIsUnique(Sort(values), Sort(other));
    SumSort(values);
    SumSort(other);
    ScatterSort(values, Mean(values));
    ScatterSort(other, Mean(values));
    hide Percentile, Median, Sort, Sum, Scatter;
  }
}
