/** `SimpleLinearRegression`: the fitted line is the least-squares line. */
module Regression {
  import opened Moments
  import opened Options
  import opened Summaries

  function Products(xs: seq<real>, ys: seq<real>): (r: seq<real>)
    requires |xs| == |ys|
    ensures |r| == |xs|
  {
    if xs == [] then [] else [Times(xs[0], ys[0])] + Products(xs[1..], ys[1..])
  }

  /** The sum of (x - p)(y - q). */
  function CrossDeviations(xs: seq<real>, ys: seq<real>, p: real, q: real): real
    requires |xs| == |ys|
  {
    if xs == [] then 0.0 else Times(xs[0] - p, ys[0] - q) + CrossDeviations(xs[1..], ys[1..], p, q)
  }

  /** The sum of squared errors of the line a + b x. */
  function SquaredErrors(xs: seq<real>, ys: seq<real>, a: real, b: real): real
    requires |xs| == |ys|
  {
    if xs == [] then 0.0
    else var error := Error(xs[0], ys[0], a, b); Times(error, error) + SquaredErrors(xs[1..], ys[1..], a, b)
  }

  function Error(x: real, y: real, a: real, b: real): real {
    y - a - b * x
  }

  // ---- The accessors ----

  function Covariance(x: Summary, y: Summary, xy: Summary): real {
    xy.average - x.average * y.average
  }

  /** None where the code gives NaN (fewer than two samples) or divides by zero. */
  function Beta(x: Summary, y: Summary, xy: Summary): Option<real> {
    if x.count >= 2 && Variance(x) != 0.0 then Some(Covariance(x, y, xy) / Variance(x)) else None
  }

  function Alpha(x: Summary, y: Summary, xy: Summary): Option<real> {
    match Beta(x, y, xy)
    case Some(beta) => Some(y.average - x.average * beta)
    case None => None
  }

  function Predict(x: Summary, y: Summary, xy: Summary, at: real): Option<real> {
    match Beta(x, y, xy)
    case Some(beta) => Some(beta * (at - x.average) + y.average)
    case None => None
  }

  /** The three accumulators of a regression fed xs and ys. */
  ghost predicate Fed(x: Summary, y: Summary, xy: Summary, xs: seq<real>, ys: seq<real>) {
    |xs| == |ys| && Summarizes(x, xs) && Summarizes(y, ys) && Summarizes(xy, Products(xs, ys))
  }

  // ---- Covariance ----

  function CrossExpanded(n: real, sx: real, sy: real, sxy: real, p: real, q: real): real {
    sxy - q * sx - p * sy + n * (p * q)
  }

  lemma CrossStep(x: real, y: real, n: real, sx: real, sy: real, sxy: real, p: real, q: real)
    ensures Times(x - p, y - q) + CrossExpanded(n, sx, sy, sxy, p, q)
            == CrossExpanded(n + 1.0, x + sx, y + sy, Times(x, y) + sxy, p, q)
  {
    assert (x - p) * (y - q) == x * y - q * x - p * y + p * q;
    Distribute(q, x, sx);
    Distribute(p, y, sy);
    Distribute(p * q, n, 1.0);
  }

  lemma {:induction false} CrossExpands(xs: seq<real>, ys: seq<real>, p: real, q: real)
    requires |xs| == |ys|
    ensures CrossDeviations(xs, ys, p, q) == CrossExpanded(|xs| as real, Sum(xs), Sum(ys), Sum(Products(xs, ys)), p, q)
  {
    if xs == [] {
      assert 0.0 * (p * q) == 0.0;
    } else {
      hide CrossExpanded, Times;
      CrossExpands(xs[1..], ys[1..], p, q);
      CrossStep(xs[0], ys[0], |xs[1..]| as real, Sum(xs[1..]), Sum(ys[1..]), Sum(Products(xs[1..], ys[1..])), p, q);
      assert Products(xs, ys)[1..] == Products(xs[1..], ys[1..]);
      assert |xs| as real == |xs[1..]| as real + 1.0;
    }
  }

  lemma CrossAtMeans(n: real, sx: real, sy: real, sxy: real, mx: real, my: real, mxy: real)
    requires sx == mx * n && sy == my * n && sxy == mxy * n
    ensures CrossExpanded(n, sx, sy, sxy, mx, my) == (mxy - mx * my) * n
  {
    assert my * (mx * n) == n * (mx * my);
    assert mx * (my * n) == n * (mx * my);
    assert (mxy - mx * my) * n == mxy * n - mx * my * n;
  }

  /** `covariance()` times the count is the sum of the products of the deviations. */
  lemma CovarianceIsMeanCross(x: Summary, y: Summary, xy: Summary, xs: seq<real>, ys: seq<real>)
    requires Fed(x, y, xy, xs, ys)
    ensures Covariance(x, y, xy) * |xs| as real == CrossDeviations(xs, ys, x.average, y.average)
  {
    hide Sum, SquaredDeviations, CrossExpanded, Products, CrossDeviations;
    CrossExpands(xs, ys, x.average, y.average);
    CrossAtMeans(|xs| as real, Sum(xs), Sum(ys), Sum(Products(xs, ys)), x.average, y.average, xy.average);
  }

  // ---- Least squares ----

  function Linear(c1: real, c2: real, c3: real, c4: real, c5: real,
                  n: real, du: real, dv: real, duu: real, duv: real, dvv: real): real {
    duu - c1 * duv + c2 * dvv - c3 * du + c4 * dv + c5 * n
  }

  lemma LinearAdds(c1: real, c2: real, c3: real, c4: real, c5: real,
                   n: real, du: real, dv: real, duu: real, duv: real, dvv: real,
                   n': real, du': real, dv': real, duu': real, duv': real, dvv': real)
    ensures Linear(c1, c2, c3, c4, c5, n, du, dv, duu, duv, dvv)
            + Linear(c1, c2, c3, c4, c5, n', du', dv', duu', duv', dvv')
            == Linear(c1, c2, c3, c4, c5, n + n', du + du', dv + dv', duu + duu', duv + duv', dvv + dvv')
  {
    Distribute(c1, duv, duv');
    Distribute(c2, dvv, dvv');
    Distribute(c3, du, du');
    Distribute(c4, dv, dv');
    Distribute(c5, n, n');
  }

  /** The sum of squared errors by way of the deviations from p and q: with u = y - q,
      v = x - p and e = a + b p - q, an error is u - b v - e. */
  function ErrorsExpanded(n: real, du: real, dv: real, duu: real, duv: real, dvv: real, b: real, e: real): real {
    Linear(2.0 * b, b * b, 2.0 * e, 2.0 * (e * b), e * e, n, du, dv, duu, duv, dvv)
  }

  lemma SquareOfThree(u: real, v: real, b: real, e: real, error: real)
    requires error == u - b * v - e
    ensures Times(error, error) == ErrorsExpanded(1.0, u, v, Times(u, u), Times(v, u), Times(v, v), b, e)
  {
    var w := b * v;
    assert error * error == u * u + w * w + e * e - 2.0 * (u * w) - 2.0 * (u * e) + 2.0 * (w * e);
    assert w * w == b * b * (v * v);
    assert u * w == b * (v * u);
    assert w * e == e * b * v;
  }

  lemma ErrorsAdd(n: real, du: real, dv: real, duu: real, duv: real, dvv: real,
                  b: real, e: real, u: real, v: real, error: real)
    requires error == u - b * v - e
    ensures Times(error, error) + ErrorsExpanded(n, du, dv, duu, duv, dvv, b, e)
            == ErrorsExpanded(1.0 + n, u + du, v + dv, Times(u, u) + duu, Times(v, u) + duv, Times(v, v) + dvv, b, e)
  {
    hide Linear, Times;
    SquareOfThree(u, v, b, e, error);
    LinearAdds(2.0 * b, b * b, 2.0 * e, 2.0 * (e * b), e * e,
               1.0, u, v, Times(u, u), Times(v, u), Times(v, v), n, du, dv, duu, duv, dvv);
  }

  lemma ErrorFrom(x: real, y: real, a: real, b: real, p: real, q: real)
    ensures Error(x, y, a, b) == y - q - b * (x - p) - Intercept(a, b, p, q)
  {
    Distribute(b, x - p, p);
  }

  /** How far the line passes above (p, q). */
  function Intercept(a: real, b: real, p: real, q: real): real {
    a + b * p - q
  }

  /** The sum of distances from c. */
  function Deviations(xs: seq<real>, c: real): real {
    if xs == [] then 0.0 else xs[0] - c + Deviations(xs[1..], c)
  }

  lemma {:induction false} DeviationsFromMean(xs: seq<real>, c: real)
    ensures Deviations(xs, c) == Sum(xs) - c * |xs| as real
  {
    if xs == [] {
    } else {
      DeviationsFromMean(xs[1..], c);
      Distribute(c, |xs[1..]| as real, 1.0);
    }
  }

  lemma ExpandedZero(b: real, e: real)
    ensures ErrorsExpanded(0.0, 0.0, 0.0, 0.0, 0.0, 0.0, b, e) == 0.0
  {
    assert 0.0 * (e * e) == 0.0;
  }

  lemma {:induction false} ErrorsExpand(xs: seq<real>, ys: seq<real>, a: real, b: real, p: real, q: real)
    requires |xs| == |ys|
    ensures SquaredErrors(xs, ys, a, b)
            == ErrorsExpanded(|xs| as real, Deviations(ys, q), Deviations(xs, p), SquaredDeviations(ys, q),
                              CrossDeviations(xs, ys, p, q), SquaredDeviations(xs, p), b, Intercept(a, b, p, q))
  {
    hide ErrorsExpanded, Intercept, Times, Error;
    if xs == [] {
      ExpandedZero(b, Intercept(a, b, p, q));
    } else {
      ErrorsExpand(xs[1..], ys[1..], a, b, p, q);
      ErrorFrom(xs[0], ys[0], a, b, p, q);
      ErrorsAdd(|xs[1..]| as real, Deviations(ys[1..], q), Deviations(xs[1..], p), SquaredDeviations(ys[1..], q),
                CrossDeviations(xs[1..], ys[1..], p, q), SquaredDeviations(xs[1..], p), b, Intercept(a, b, p, q),
                ys[0] - q, xs[0] - p, Error(xs[0], ys[0], a, b));
      assert |xs| as real == 1.0 + |xs[1..]| as real;
    }
  }

  /** With p and q the means, the linear terms vanish. */
  lemma ErrorsFromMeans(x: Summary, y: Summary, xy: Summary, xs: seq<real>, ys: seq<real>, a: real, b: real)
    requires Fed(x, y, xy, xs, ys)
    ensures SquaredErrors(xs, ys, a, b)
            == FromMeans(|xs| as real, y.m2, CrossDeviations(xs, ys, x.average, y.average), x.m2, b,
                         Intercept(a, b, x.average, y.average))
  {
    hide Sum, SquaredDeviations, SquaredErrors, Deviations, CrossDeviations, Products, Intercept;
    ErrorsExpand(xs, ys, a, b, x.average, y.average);
    DeviationsFromMean(xs, x.average);
    DeviationsFromMean(ys, y.average);
    var e := Intercept(a, b, x.average, y.average);
    assert 2.0 * e * 0.0 == 0.0 && 2.0 * (e * b) * 0.0 == 0.0;
  }

  function FromMeans(n: real, dyy: real, dxy: real, dxx: real, b: real, e: real): real {
    dyy - 2.0 * b * dxy + b * b * dxx + n * (e * e)
  }

  /** Completing the square around the slope s with dxy = s dxx. */
  lemma CompleteSquare(n: real, dyy: real, dxy: real, dxx: real, b: real, e: real, s: real)
    requires dxy == s * dxx
    ensures FromMeans(n, dyy, dxy, dxx, b, e)
            == FromMeans(n, dyy, dxy, dxx, s, 0.0) + dxx * Times(b - s, b - s) + n * Times(e, e)
    ensures FromMeans(n, dyy, dxy, dxx, s, 0.0) == dyy - s * dxy
  {
    assert (b - s) * (b - s) == b * b - 2.0 * b * s + s * s;
    assert dxx * (b * b - 2.0 * b * s + s * s) == b * b * dxx - 2.0 * b * (s * dxx) + s * (s * dxx);
    assert s * s * dxx == s * dxy;
    assert n * (0.0 * 0.0) == 0.0;
  }

  /** The slope times the squared deviations of x is the cross deviations. */
  lemma SlopeSolves(x: Summary, y: Summary, xy: Summary, xs: seq<real>, ys: seq<real>, beta: real)
    requires Fed(x, y, xy, xs, ys) && Beta(x, y, xy) == Some(beta)
    ensures CrossDeviations(xs, ys, x.average, y.average) == beta * x.m2
  {
    hide Sum, SquaredDeviations, CrossDeviations, Products, Covariance;
    CovarianceIsMeanCross(x, y, xy, xs, ys);
    var n := |xs| as real;
    QuotientTimes(Covariance(x, y, xy), Variance(x));
    QuotientTimes(x.m2, n);
    assert beta * Variance(x) * n == beta * (Variance(x) * n);
  }

  lemma {:induction false} NoDeviation(xs: seq<real>, c: real)
    ensures (forall i :: 0 <= i < |xs| ==> xs[i] == c) ==> SquaredDeviations(xs, c) == 0.0
    ensures !(forall i :: 0 <= i < |xs| ==> xs[i] == c) ==> SquaredDeviations(xs, c) > 0.0
  {
    if xs == [] {
    } else {
      hide SquaredDeviations, Times;
      var rest := xs[1..];
      DeviationsUnfold(xs, c);
      NoDeviation(rest, c);
      DeviationsNonnegative(rest, c);
      SquareZero(xs[0] - c);
      if xs[0] == c {
        assert forall i :: 0 < i < |xs| ==> xs[i] == rest[i - 1];
        assert forall i :: 0 <= i < |rest| ==> rest[i] == xs[i + 1];
      }
    }
  }

  lemma DeviationsUnfold(xs: seq<real>, c: real)
    requires xs != []
    ensures SquaredDeviations(xs, c) == Times(xs[0] - c, xs[0] - c) + SquaredDeviations(xs[1..], c)
  {
  }

  lemma SquareZero(d: real)
    ensures d != 0.0 ==> Times(d, d) > 0.0
    ensures d == 0.0 ==> Times(d, d) == 0.0
  {
    SameSign(d, d);
  }

  lemma SameSign(a: real, b: real)
    ensures (a > 0.0 && b > 0.0) || (a < 0.0 && b < 0.0) ==> Times(a, b) > 0.0
  {
  }

  lemma {:induction false} SumOfSame(xs: seq<real>, v: real)
    requires forall i :: 0 <= i < |xs| ==> xs[i] == v
    ensures Sum(xs) == v * |xs| as real
  {
    if xs == [] {
    } else {
      SumOfSame(xs[1..], v);
      SumCons(xs);
      assert |xs| as real == 1.0 + |xs[1..]| as real;
    }
  }

  /** From two samples on the variance is the mean squared deviation from the mean; it is 0
      exactly when all samples are the same. */
  lemma VarianceIs(x: Summary, xs: seq<real>)
    requires Summarizes(x, xs)
    ensures |xs| >= 2 ==> Variance(x) * |xs| as real == SquaredDeviations(xs, x.average)
    ensures (forall i, j :: 0 <= i < |xs| && 0 <= j < |xs| ==> xs[i] == xs[j]) ==> Variance(x) == 0.0
    ensures !(forall i, j :: 0 <= i < |xs| && 0 <= j < |xs| ==> xs[i] == xs[j]) ==> Variance(x) > 0.0
  {
    if |xs| < 2 {
      return;
    }
    var n := |xs| as real;
    NoDeviation(xs, x.average);
    QuotientTimes(x.m2, n);
    assert Variance(x) == x.m2 / n;
    hide Sum, SquaredDeviations, Variance;
    if forall i, j :: 0 <= i < |xs| && 0 <= j < |xs| ==> xs[i] == xs[j] {
      SumOfSame(xs, xs[0]);
      Cancel(x.average, xs[0], n);
      Cancel(Variance(x), 0.0, n);
    } else {
      PositiveQuotient(x.m2, n);
    }
  }

  lemma PositiveQuotient(a: real, b: real)
    requires a > 0.0 && b > 0.0
    ensures a / b > 0.0
  {
  }

  /** There is a fitted line exactly when two of the x values differ. */
  lemma LineExistsIff(x: Summary, y: Summary, xy: Summary, xs: seq<real>, ys: seq<real>)
    requires Fed(x, y, xy, xs, ys)
    ensures Beta(x, y, xy).Some? <==> exists i, j :: 0 <= i < j < |xs| && xs[i] != xs[j]
    ensures Alpha(x, y, xy).Some? <==> Beta(x, y, xy).Some?
  {
    hide Sum, SquaredDeviations, Variance, Products, Covariance;
    if |xs| >= 2 {
      VarianceIs(x, xs);
      if i, j :| 0 <= i < |xs| && 0 <= j < |xs| && xs[i] != xs[j] {
        if i < j {
          assert xs[i] != xs[j];
        } else {
          assert 0 <= j < i < |xs| && xs[j] != xs[i];
        }
      }
    }
  }

  /** The line of `alpha` and `beta` has the least sum of squared errors of all lines, and is
      the only one that has. */
  lemma LeastSquares(x: Summary, y: Summary, xy: Summary, xs: seq<real>, ys: seq<real>, a: real, b: real)
    requires Fed(x, y, xy, xs, ys) && Beta(x, y, xy).Some?
    ensures var alpha, beta := Alpha(x, y, xy).value, Beta(x, y, xy).value;
            && SquaredErrors(xs, ys, alpha, beta) <= SquaredErrors(xs, ys, a, b)
            && (SquaredErrors(xs, ys, alpha, beta) == SquaredErrors(xs, ys, a, b) <==> a == alpha && b == beta)
  {
    hide Sum, SquaredDeviations, SquaredErrors, CrossDeviations, Products, Covariance, FromMeans, Variance, Times;
    var alpha, beta := Alpha(x, y, xy).value, Beta(x, y, xy).value;
    var n, dxy := |xs| as real, CrossDeviations(xs, ys, x.average, y.average);
    var e := Intercept(a, b, x.average, y.average);
    SlopeSolves(x, y, xy, xs, ys, beta);
    ErrorsFromMeans(x, y, xy, xs, ys, a, b);
    ErrorsFromMeans(x, y, xy, xs, ys, alpha, beta);
    InterceptOfAlpha(x.average, y.average, alpha, beta, a, b);
    CompleteSquare(n, y.m2, dxy, x.m2, b, e, beta);
    PositiveVariance(x, xs);
    PositivePart(x.m2, b - beta, n, e);
  }

  lemma InterceptOfAlpha(mx: real, my: real, alpha: real, beta: real, a: real, b: real)
    requires alpha == my - mx * beta
    ensures Intercept(alpha, beta, mx, my) == 0.0
    ensures b == beta && Intercept(a, b, mx, my) == 0.0 <==> b == beta && a == alpha
  {
  }

  lemma PositiveVariance(x: Summary, xs: seq<real>)
    requires Summarizes(x, xs) && x.count >= 2 && Variance(x) != 0.0
    ensures x.m2 > 0.0
  {
    DeviationsNonnegative(xs, x.average);
  }

  lemma PositivePart(d: real, u: real, n: real, e: real)
    requires d > 0.0 && n > 0.0
    ensures d * Times(u, u) + n * Times(e, e) >= 0.0
    ensures d * Times(u, u) + n * Times(e, e) == 0.0 <==> u == 0.0 && e == 0.0
  {
    SquarePositive(u);
    SquarePositive(e);
    ProductSign(d, Times(u, u));
    ProductSign(n, Times(e, e));
  }

  lemma SquarePositive(u: real)
    ensures Times(u, u) >= 0.0
    ensures Times(u, u) == 0.0 <==> u == 0.0
  {
    if u > 0.0 {
      ProductSign(u, u);
    } else if u < 0.0 {
      ProductSign(-u, -u);
      assert u * u == -u * -u;
    }
  }

  lemma ProductSign(d: real, s: real)
    requires d > 0.0 && s >= 0.0
    ensures d * s >= 0.0
    ensures d * s == 0.0 <==> s == 0.0
  {
  }

  /** `predict` is the value of that line. */
  lemma PredictIsLine(x: Summary, y: Summary, xy: Summary, at: real)
    ensures match Predict(x, y, xy, at)
            case Some(v) => Alpha(x, y, xy).Some? && v == Alpha(x, y, xy).value + Beta(x, y, xy).value * at
            case None => Beta(x, y, xy).None?
  {
    if Beta(x, y, xy).Some? {
      Distribute(Beta(x, y, xy).value, at - x.average, x.average);
    }
  }

  // ---- Correlation ----

  lemma {:induction false} ErrorsNonnegative(xs: seq<real>, ys: seq<real>, a: real, b: real)
    requires |xs| == |ys|
    ensures SquaredErrors(xs, ys, a, b) >= 0.0
  {
    if xs == [] {
    } else {
      hide Error, Times;
      SquarePositive(Error(xs[0], ys[0], a, b));
      ErrorsNonnegative(xs[1..], ys[1..], a, b);
    }
  }

  lemma {:induction false} NoSpreadNoCross(xs: seq<real>, ys: seq<real>, p: real, q: real)
    requires |xs| == |ys| && SquaredDeviations(xs, p) == 0.0
    ensures CrossDeviations(xs, ys, p, q) == 0.0
  {
    if xs == [] {
    } else {
      SquarePositive(xs[0] - p);
      DeviationsNonnegative(xs[1..], p);
      NoSpreadNoCross(xs[1..], ys[1..], p, q);
      assert 0.0 * (ys[0] - q) == 0.0;
    }
  }

  /** Cauchy-Schwarz for the deviations from the means, by way of the least-squares line. */
  lemma CrossBounded(x: Summary, y: Summary, xy: Summary, xs: seq<real>, ys: seq<real>)
    requires Fed(x, y, xy, xs, ys)
    ensures var dxy := CrossDeviations(xs, ys, x.average, y.average);
            dxy * dxy <= x.m2 * y.m2
  {
    hide Sum, SquaredErrors, CrossDeviations, Products, FromMeans, Times, Intercept;
    var n, dxy := |xs| as real, CrossDeviations(xs, ys, x.average, y.average);
    DeviationsNonnegative(xs, x.average);
    if x.m2 == 0.0 {
      NoSpreadNoCross(xs, ys, x.average, y.average);
    } else {
      var slope := dxy / x.m2;
      QuotientTimes(dxy, x.m2);
      var a := y.average - x.average * slope;
      InterceptOfAlpha(x.average, y.average, a, slope, a, slope);
      ErrorsFromMeans(x, y, xy, xs, ys, a, slope);
      CompleteSquare(n, y.m2, dxy, x.m2, slope, 0.0, slope);
      ErrorsNonnegative(xs, ys, a, slope);
      ScaleUp(y.m2, slope, dxy, x.m2);
    }
  }

  lemma ScaleUp(dyy: real, slope: real, dxy: real, dxx: real)
    requires dyy - slope * dxy >= 0.0 && dxx > 0.0 && slope * dxx == dxy
    ensures dxy * dxy <= dxx * dyy
  {
    assert dxx * (dyy - slope * dxy) >= 0.0;
    assert dxx * (dyy - slope * dxy) == dxx * dyy - (slope * dxx) * dxy;
  }

  /** The square of the covariance never exceeds the product of the variances. */
  lemma CovarianceBounded(x: Summary, y: Summary, xy: Summary, xs: seq<real>, ys: seq<real>)
    requires Fed(x, y, xy, xs, ys) && |xs| >= 2
    ensures Covariance(x, y, xy) * Covariance(x, y, xy) <= Variance(x) * Variance(y)
  {
    hide Sum, SquaredDeviations, CrossDeviations, Products, Covariance;
    var n := |xs| as real;
    CovarianceIsMeanCross(x, y, xy, xs, ys);
    CrossBounded(x, y, xy, xs, ys);
    QuotientTimes(x.m2, n);
    QuotientTimes(y.m2, n);
    ScaleDown(Covariance(x, y, xy), Variance(x), Variance(y), n,
              CrossDeviations(xs, ys, x.average, y.average), x.m2, y.m2);
  }

  lemma ScaleDown(c: real, vx: real, vy: real, n: real, dxy: real, dxx: real, dyy: real)
    requires n > 0.0 && c * n == dxy && vx * n == dxx && vy * n == dyy && dxy * dxy <= dxx * dyy
    ensures c * c <= vx * vy
  {
    assert dxy * dxy == c * c * (n * n);
    assert dxx * dyy == vx * vy * (n * n);
    if c * c > vx * vy {
      ProductSign(n, n);
      ProductSign(n * n, c * c - vx * vy);
    }
  }

  function Clamp(v: real): real {
    var low := if v < 1.0 then v else 1.0;
    if low > -1.0 then low else -1.0
  }

  lemma ClampIs(v: real)
    ensures v > 1.0 ==> Clamp(v) == 1.0
    ensures v < -1.0 ==> Clamp(v) == -1.0
    ensures -1.0 <= v <= 1.0 ==> Clamp(v) == v
  {
  }

  /** On exact numbers the clamp of `correlation()` changes nothing: whatever the positive
      square root of the product of the variances, the quotient is already within -1 and 1. */
  lemma ClampChangesNothing(x: Summary, y: Summary, xy: Summary, xs: seq<real>, ys: seq<real>, root: real)
    requires Fed(x, y, xy, xs, ys) && |xs| >= 2
    requires root > 0.0 && root * root == Variance(x) * Variance(y)
    ensures Clamp(Covariance(x, y, xy) / root) == Covariance(x, y, xy) / root
  {
    hide Sum, SquaredDeviations, CrossDeviations, Products, Covariance, Variance;
    CovarianceBounded(x, y, xy, xs, ys);
    QuotientBounded(Covariance(x, y, xy), root);
  }

  lemma QuotientBounded(c: real, r: real)
    requires r > 0.0 && c * c <= r * r
    ensures -1.0 <= c / r <= 1.0
  {
    var k := c / r;
    QuotientTimes(c, r);
    assert -c * -c == c * c;
    if k > 1.0 {
      ProductSign(r, k - 1.0);
      LargerSquare(c, r);
    } else if k < -1.0 {
      ProductSign(r, -1.0 - k);
      LargerSquare(-c, r);
    }
  }

  lemma LargerSquare(a: real, b: real)
    requires a > b > 0.0
    ensures a * a > b * b
  {
    assert a * a - b * b == (a - b) * (a + b);
    ProductSign(a - b, a + b);
  }

  // ---- The object ----

  class SimpleLinearRegression {
    const x: SummaryStatistics
    const y: SummaryStatistics
    const xy: SummaryStatistics
    ghost var xs: seq<real>
    ghost var ys: seq<real>

    ghost predicate Valid()
      reads this, x, y, xy
    {
      && x != y && x != xy && y != xy
      && |xs| == |ys|
      && x.Valid() && y.Valid() && xy.Valid()
      && x.samples == xs && y.samples == ys && xy.samples == Products(xs, ys)
    }

    constructor ()
      ensures Valid() && xs == [] && ys == []
      ensures fresh(x) && fresh(y) && fresh(xy)
    {
      x := new SummaryStatistics(false);
      y := new SummaryStatistics(false);
      xy := new SummaryStatistics(false);
      xs, ys := [], [];
    }

    method Sample(vx: real, vy: real)
      requires Valid()
      modifies this, x, y, xy
      ensures Valid() && xs == old(xs) + [vx] && ys == old(ys) + [vy]
    {
      ProductsSnoc(xs, ys, vx, vy);
      x.Sample(vx);
      y.Sample(vy);
      xy.Sample(vx * vy);
      xs, ys := xs + [vx], ys + [vy];
    }

    method Reset()
      requires Valid()
      modifies this, x, y, xy
      ensures Valid() && xs == [] && ys == []
    {
      x.Reset();
      y.Reset();
      xy.Reset();
      xs, ys := [], [];
    }

    /** The fitted line, when there is one: no line has a smaller sum of squared errors over
        the samples fed. */
    method Fit() returns (line: Option<(real, real)>)
      requires Valid()
      ensures line.Some? <==> exists i, j :: 0 <= i < j < |xs| && xs[i] != xs[j]
      ensures line.Some? ==> forall a, b ::
                SquaredErrors(xs, ys, line.value.0, line.value.1) <= SquaredErrors(xs, ys, a, b)
      ensures line.Some? ==>
                && Alpha(x.State(), y.State(), xy.State()).Some? && Beta(x.State(), y.State(), xy.State()).Some?
                && line.value.0 == Alpha(x.State(), y.State(), xy.State()).value
                && line.value.1 == Beta(x.State(), y.State(), xy.State()).value
    {
      hide SquaredErrors, Variance, Covariance, Sum, SquaredDeviations, Products;
      var alpha, beta := Alpha(x.State(), y.State(), xy.State()), Beta(x.State(), y.State(), xy.State());
      LineExistsIff(x.State(), y.State(), xy.State(), xs, ys);
      if beta.None? {
        return None;
      }
      line := Some((alpha.value, beta.value));
      forall a, b ensures SquaredErrors(xs, ys, line.value.0, line.value.1) <= SquaredErrors(xs, ys, a, b) {
        LeastSquares(x.State(), y.State(), xy.State(), xs, ys, a, b);
      }
    }
  }

  lemma {:induction false} ProductsSnoc(xs: seq<real>, ys: seq<real>, x: real, y: real)
    requires |xs| == |ys|
    ensures Products(xs + [x], ys + [y]) == Products(xs, ys) + [Times(x, y)]
  {
    if xs != [] {
      assert (xs + [x])[1..] == xs[1..] + [x] && (ys + [y])[1..] == ys[1..] + [y];
      ProductsSnoc(xs[1..], ys[1..], x, y);
    } else {
      assert xs + [x] == [x] && ys + [y] == [y];
    }
  }
}
