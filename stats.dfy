/** Exact versions of the statistics the engine takes from pandas and
    scikit-learn: sums, the mean, the sample (n - 1) variance, z-scores
    and the ordinary-least-squares slope.

    The inputs are integer counts. Deviations from the mean are carried
    multiplied by the count, `n * x - sum`, so that every quantity stays an
    integer, and square roots are never taken: a comparison against a
    standard deviation is squared first. */
module Stats {

  function Sum(xs: seq<int>): int {
    if xs == [] then 0 else xs[0] + Sum(xs[1..])
  }

  function SumSq(ds: seq<int>): int {
    if ds == [] then 0 else ds[0] * ds[0] + SumSq(ds[1..])
  }

  function SumProd(ds: seq<int>, es: seq<int>): int
    requires |ds| == |es|
  {
    if ds == [] then 0 else ds[0] * es[0] + SumProd(ds[1..], es[1..])
  }

  /** `k * x - c` for every `x`. */
  function Shifted(xs: seq<int>, k: int, c: int): seq<int> {
    seq(|xs|, j requires 0 <= j < |xs| => k * xs[j] - c)
  }

  /** Deviations from the mean, times the count: `n * x - sum`. The deviation
      of `xs[j]` is `Scaled(xs)[j] / n` and the sample variance is
      `SumSq(Scaled(xs)) / (n * n * (n - 1))`. */
  function Scaled(xs: seq<int>): seq<int> {
    Shifted(xs, |xs|, Sum(xs))
  }

  /** The mean, `Series.mean()`. */
  function Mean(xs: seq<int>): real
    requires |xs| > 0
  {
    Sum(xs) as real / |xs| as real
  }

  /** The square of `Series.std()` (ddof = 1); pandas gives NaN below two values. */
  function SampleVariance(xs: seq<int>): real
    requires |xs| >= 2
  {
    var n := |xs|;
    SumSq(Scaled(xs)) as real / (n * n * (n - 1)) as real
  }

  /** The square of the sample z-score of `xs[i]`: its squared deviation over
      the sample variance, which after clearing denominators is
      `(n - 1) * D^2 / SumSq(Scaled(xs))` with `D = Scaled(xs)[i]`. */
  function ZSquared(xs: seq<int>, i: nat): real
    requires i < |xs| && SumSq(Scaled(xs)) != 0
  {
    var d := Scaled(xs)[i];
    ((|xs| - 1) * (d * d)) as real / SumSq(Scaled(xs)) as real
  }

  // ---- integer facts, each small enough for the solver on its own ----

  lemma MulNonNegative(a: int, b: int)
    requires a >= 0 && b >= 0
    ensures a * b >= 0
  {
  }

  lemma MulMonotone(a: int, b: int, c: int)
    requires a <= b && c >= 0
    ensures a * c <= b * c
  {
    MulNonNegative(b - a, c);
    assert (b - a) * c == b * c - a * c;
  }

  lemma CancelFactor(n: int, x: int, y: int)
    requires n > 0 && n * x <= n * y
    ensures x <= y
  {
    if x > y {
      MulMonotone(y + 1, x, n);
    }
  }

  lemma Square(d: int)
    ensures d * d >= 0
  {
  }

  lemma SquarePositive(d: int)
    requires d != 0
    ensures d * d > 0
  {
  }

  /** One induction step of Cauchy-Schwarz. */
  lemma CauchyStep(a: int, q: int, d: int, k: int)
    requires k >= 0 && q >= 0 && a * a <= k * q
    ensures (d + a) * (d + a) <= (k + 1) * (d * d + q)
  {
    var t := q + k * (d * d) - 2 * (a * d);
    if k == 0 {
      if a != 0 {
        SquarePositive(a);
      }
    } else {
      Square(a - k * d);
      CauchyIdentity(a, q, d, k, t);
      PositiveFactor(k, t);
    }
    CauchyGap(a, q, d, k, t);
  }

  lemma CauchyIdentity(a: int, q: int, d: int, k: int, t: int)
    requires t == q + k * (d * d) - 2 * (a * d)
    ensures k * t == (a - k * d) * (a - k * d) + (k * q - a * a)
  {
  }

  lemma CauchyGap(a: int, q: int, d: int, k: int, t: int)
    requires t == q + k * (d * d) - 2 * (a * d)
    ensures (k + 1) * (d * d + q) - (d + a) * (d + a) == (k * q - a * a) + t
  {
  }

  lemma PositiveFactor(k: int, t: int)
    requires k > 0 && k * t >= 0
    ensures t >= 0
  {
    if t < 0 {
      MulMonotone(1, k, -t);
    }
  }

  lemma SamuelsonArith(n: int, d: int, e: int, s: int, so: int)
    requires e == -d && so == s - d * d
    requires e * e <= (n - 1) * so
    ensures n * (d * d) <= (n - 1) * s
  {
    assert e * e == d * d;
    assert (n - 1) * (s - d * d) == (n - 1) * s - n * (d * d) + d * d;
  }

  /** For 2 <= n <= 10: (n - 1)^2 <= 9 n, the reason no z-score of ten or
      fewer values can exceed 3. */
  lemma SmallCount(n: int)
    requires 2 <= n <= 10
    ensures (n - 1) * (n - 1) <= 9 * n
  {
  }

  lemma SmallArith(n: int, d2: int, s: int)
    requires 2 <= n <= 10 && s >= 0
    requires n * d2 <= (n - 1) * s
    ensures (n - 1) * d2 <= 9 * s
  {
    MulMonotone(n * d2, (n - 1) * s, n - 1);
    assert (n - 1) * (n * d2) == n * ((n - 1) * d2);
    assert (n - 1) * ((n - 1) * s) == ((n - 1) * (n - 1)) * s;
    SmallCount(n);
    MulMonotone((n - 1) * (n - 1), 9 * n, s);
    assert 9 * n * s == n * (9 * s);
    CancelFactor(n, (n - 1) * d2, 9 * s);
  }

  /** A ratio exceeds (falls below) k exactly when the numerator exceeds
      (falls below) k times the positive denominator. */
  lemma RatioAbove(a: int, q: int, k: int)
    requires q > 0
    ensures a as real / q as real > k as real <==> a > k * q
    ensures a as real / q as real < k as real <==> a < k * q
  {
    var r := a as real / q as real;
    assert r * q as real == a as real;
    assert (k * q) as real == k as real * q as real;
    if r <= k as real {
      assert r * q as real <= k as real * q as real;
    }
    if r >= k as real {
      assert r * q as real >= k as real * q as real;
    }
    if r < k as real {
      assert r * q as real < k as real * q as real;
    }
    if r > k as real {
      assert r * q as real > k as real * q as real;
    }
  }

  /** A value with a positive scaled deviation lies above the mean. */
  lemma AboveMean(xs: seq<int>, i: nat)
    requires i < |xs| && |xs| * xs[i] - Sum(xs) > 0
    ensures xs[i] as real > Mean(xs)
  {
    RatioAbove(Sum(xs), |xs|, xs[i]);
  }

  // ---- sums over sequences ----

  lemma {:induction false} SumShifted(xs: seq<int>, k: int, c: int)
    ensures Sum(Shifted(xs, k, c)) == k * Sum(xs) - |xs| * c
  {
    if xs != [] {
      var t := Shifted(xs, k, c);
      assert t[1..] == Shifted(xs[1..], k, c);
      SumShifted(xs[1..], k, c);
      assert Sum(t) == t[0] + Sum(t[1..]) && t[0] == k * xs[0] - c;
      ShiftStep(k, xs[0], Sum(xs[1..]), |xs[1..]|, c);
    }
  }

  lemma ShiftStep(k: int, x: int, s: int, n: int, c: int)
    ensures k * (x + s) - (n + 1) * c == (k * x - c) + (k * s - n * c)
  {
  }

  /** Deviations from the mean cancel out. */
  lemma SumScaled(xs: seq<int>)
    ensures Sum(Scaled(xs)) == 0
  {
    SumShifted(xs, |xs|, Sum(xs));
  }

  lemma {:induction false} SumSqNonNegative(ds: seq<int>)
    ensures SumSq(ds) >= 0
  {
    if ds != [] {
      SumSqNonNegative(ds[1..]);
      Square(ds[0]);
    }
  }

  /** The squares sum to zero exactly when every entry is zero. */
  lemma SumSqZero(ds: seq<int>)
    ensures SumSq(ds) == 0 <==> forall j :: 0 <= j < |ds| ==> ds[j] == 0
  {
    if forall j :: 0 <= j < |ds| ==> ds[j] == 0 {
      SumSqOfZeros(ds);
    } else {
      var j :| 0 <= j < |ds| && ds[j] != 0;
      SumSqPositive(ds, j);
    }
  }

  lemma {:induction false} SumSqOfZeros(ds: seq<int>)
    requires forall j :: 0 <= j < |ds| ==> ds[j] == 0
    ensures SumSq(ds) == 0
  {
    if ds != [] {
      assert ds[0] == 0;
      SumSqOfZeros(ds[1..]);
    }
  }

  lemma {:induction false} SumSqPositive(ds: seq<int>, j: nat)
    requires j < |ds| && ds[j] != 0
    ensures SumSq(ds) > 0
  {
    SumSqNonNegative(ds[1..]);
    if j == 0 {
      SquarePositive(ds[0]);
    } else {
      SumSqPositive(ds[1..], j - 1);
      Square(ds[0]);
    }
  }

  lemma {:induction false} SumOfConstant(xs: seq<int>, c: int)
    requires forall j :: 0 <= j < |xs| ==> xs[j] == c
    ensures Sum(xs) == |xs| * c
  {
    if xs != [] {
      assert xs[0] == c;
      SumOfConstant(xs[1..], c);
      assert |xs| * c == c + |xs[1..]| * c;
    }
  }

  lemma {:induction false} SumAppend(xs: seq<int>, ys: seq<int>)
    ensures Sum(xs + ys) == Sum(xs) + Sum(ys)
  {
    if xs == [] {
      assert xs + ys == ys;
    } else {
      assert (xs + ys)[1..] == xs[1..] + ys;
      SumAppend(xs[1..], ys);
    }
  }

  lemma {:induction false} SumSqAppend(xs: seq<int>, ys: seq<int>)
    ensures SumSq(xs + ys) == SumSq(xs) + SumSq(ys)
  {
    if xs == [] {
      assert xs + ys == ys;
    } else {
      assert (xs + ys)[1..] == xs[1..] + ys;
      SumSqAppend(xs[1..], ys);
    }
  }

  lemma {:induction false} SumSqOfConstant(xs: seq<int>, c: int)
    requires forall j :: 0 <= j < |xs| ==> xs[j] == c
    ensures SumSq(xs) == |xs| * (c * c)
  {
    if xs != [] {
      assert xs[0] == c;
      SumSqOfConstant(xs[1..], c);
      assert |xs| * (c * c) == c * c + |xs[1..]| * (c * c);
    }
  }

  /** The sample variance is zero exactly when all the values are equal. */
  lemma VarianceZero(xs: seq<int>)
    requires |xs| > 0
    ensures SumSq(Scaled(xs)) == 0 <==> forall j :: 0 <= j < |xs| ==> xs[j] == xs[0]
  {
    var n, ds := |xs|, Scaled(xs);
    SumSqZero(ds);
    if forall j :: 0 <= j < n ==> xs[j] == xs[0] {
      SumOfConstant(xs, xs[0]);
      forall j | 0 <= j < n ensures ds[j] == 0 {
        assert ds[j] == n * xs[j] - Sum(xs);
      }
    } else if forall j :: 0 <= j < n ==> ds[j] == 0 {
      var j :| 0 <= j < n && xs[j] != xs[0];
      assert n * xs[j] == n * xs[0] by {
        assert ds[j] == n * xs[j] - Sum(xs) && ds[0] == n * xs[0] - Sum(xs);
      }
      CancelFactor(n, xs[j], xs[0]);
      CancelFactor(n, xs[0], xs[j]);
    }
  }

  /** The Cauchy-Schwarz inequality: (sum of d)^2 <= n * sum of d^2. */
  lemma {:induction false} CauchySchwarz(ds: seq<int>)
    ensures Sum(ds) * Sum(ds) <= |ds| * SumSq(ds)
  {
    if ds != [] {
      var rest := ds[1..];
      CauchySchwarz(rest);
      SumSqNonNegative(rest);
      CauchyStep(Sum(rest), SumSq(rest), ds[0], |rest|);
    }
  }

  /** Removing one entry removes it from the sum and its square from the sum of squares. */
  lemma {:induction false} RemoveOne(ds: seq<int>, i: nat)
    requires i < |ds|
    ensures Sum(ds[..i] + ds[i + 1..]) == Sum(ds) - ds[i]
    ensures SumSq(ds[..i] + ds[i + 1..]) == SumSq(ds) - ds[i] * ds[i]
  {
    var others := ds[..i] + ds[i + 1..];
    if i == 0 {
      assert others == ds[1..];
    } else {
      var tail := ds[1..];
      RemoveOne(tail, i - 1);
      assert others == [ds[0]] + (tail[..i - 1] + tail[i..]);
      assert others[1..] == tail[..i - 1] + tail[i..];
    }
  }

  /** Samuelson's inequality, squared and with denominators cleared: for
      deviations that cancel out, n * d_i^2 <= (n - 1) * sum of d^2, i.e. no
      sample z-score exceeds (n - 1) / sqrt(n). */
  lemma Samuelson(ds: seq<int>, i: nat)
    requires i < |ds| && Sum(ds) == 0
    ensures |ds| * (ds[i] * ds[i]) <= (|ds| - 1) * SumSq(ds)
  {
    var others := ds[..i] + ds[i + 1..];
    RemoveOne(ds, i);
    CauchySchwarz(others);
    assert |others| == |ds| - 1;
    SamuelsonArith(|ds|, ds[i], Sum(others), SumSq(ds), SumSq(others));
  }

  /** With 2 to 10 values no squared z-score exceeds 9: (n - 1) d_i^2 <= 9 * sum of d^2. */
  lemma SmallSampleBound(ds: seq<int>, i: nat)
    requires 2 <= |ds| <= 10 && i < |ds| && Sum(ds) == 0
    ensures (|ds| - 1) * (ds[i] * ds[i]) <= 9 * SumSq(ds)
  {
    Samuelson(ds, i);
    SumSqNonNegative(ds);
    SmallArith(|ds|, ds[i] * ds[i], SumSq(ds));
  }

  // ---- least squares ----

  /** The least-squares slope of `ys` on `xs`: the summed products of
      deviations over the summed squared deviations (both scaled by n^2,
      which cancels). When every x is the same the normal equations are
      singular and the minimum-norm solution `LinearRegression` returns has
      slope 0. */
  function Slope(xs: seq<int>, ys: seq<int>): real
    requires |xs| == |ys|
  {
    var sxx := SumSq(Scaled(xs));
    if sxx == 0 then 0.0 else SumProd(Scaled(xs), Scaled(ys)) as real / sxx as real
  }

  lemma {:induction false} SumLinear(xs: seq<int>, ys: seq<int>, a: int, b: int)
    requires |xs| == |ys|
    requires forall j :: 0 <= j < |xs| ==> ys[j] == a + b * xs[j]
    ensures Sum(ys) == |xs| * a + b * Sum(xs)
  {
    if xs != [] {
      SumLinear(xs[1..], ys[1..], a, b);
      assert |xs| * a == a + |xs[1..]| * a;
      assert b * Sum(xs) == b * xs[0] + b * Sum(xs[1..]);
    }
  }

  lemma {:induction false} SumProdMultiple(ds: seq<int>, es: seq<int>, b: int)
    requires |ds| == |es|
    requires forall j :: 0 <= j < |ds| ==> es[j] == b * ds[j]
    ensures SumProd(ds, es) == b * SumSq(ds)
  {
    if ds != [] {
      SumProdMultiple(ds[1..], es[1..], b);
      assert ds[0] * es[0] == b * (ds[0] * ds[0]);
      assert b * SumSq(ds) == b * (ds[0] * ds[0]) + b * SumSq(ds[1..]);
    }
  }

  /** A line's scaled deviations are its slope times those of its x values. */
  lemma ScaledLinear(xs: seq<int>, ys: seq<int>, a: int, b: int)
    requires |xs| == |ys|
    requires forall j :: 0 <= j < |xs| ==> ys[j] == a + b * xs[j]
    ensures forall j :: 0 <= j < |xs| ==> Scaled(ys)[j] == b * Scaled(xs)[j]
  {
    var n := |xs|;
    SumLinear(xs, ys, a, b);
    forall j | 0 <= j < n ensures Scaled(ys)[j] == b * Scaled(xs)[j] {
      assert Scaled(ys)[j] == n * ys[j] - Sum(ys) && Scaled(xs)[j] == n * xs[j] - Sum(xs);
      LinearStep(n, a, b, xs[j], Sum(xs));
    }
  }

  lemma LinearStep(n: int, a: int, b: int, x: int, s: int)
    ensures n * (a + b * x) - (n * a + b * s) == b * (n * x - s)
  {
  }

  /** The fit is exact on points that lie on a line: the slope is the line's. */
  lemma SlopeOfLine(xs: seq<int>, ys: seq<int>, a: int, b: int)
    requires |xs| == |ys|
    requires forall j :: 0 <= j < |xs| ==> ys[j] == a + b * xs[j]
    requires SumSq(Scaled(xs)) != 0
    ensures Slope(xs, ys) == b as real
  {
    ScaledLinear(xs, ys, a, b);
    SumProdMultiple(Scaled(xs), Scaled(ys), b);
    DivCancel(b, SumSq(Scaled(xs)));
  }

  lemma DivCancel(b: int, s: int)
    requires s != 0
    ensures (b * s) as real / s as real == b as real
  {
    assert (b * s) as real == b as real * s as real;
  }

  /** A constant response has slope zero, whether or not the x values differ. */
  lemma SlopeOfConstant(xs: seq<int>, ys: seq<int>, c: int)
    requires |xs| == |ys|
    requires forall j :: 0 <= j < |ys| ==> ys[j] == c
    ensures Slope(xs, ys) == 0.0
  {
    if SumSq(Scaled(xs)) != 0 {
      SlopeOfLine(xs, ys, c, 0);
    }
  }

  // ---- rounding toward zero ----

  /** `int(x)` on a float and `astype(int)` on an array: rounding toward zero. */
  function Trunc(x: real): (t: int)
    ensures 0.0 <= x ==> 0 <= t && t as real <= x < t as real + 1.0
    ensures x < 0.0 ==> t <= 0 && t as real - 1.0 < x <= t as real
  {
    if x >= 0.0 then x.Floor else -((-x).Floor)
  }

  /** Rounding toward zero keeps the order of non-negative values. */
  lemma TruncMonotone(x: real, y: real)
    requires 0.0 <= x <= y
    ensures Trunc(x) <= Trunc(y)
  {
    assert Trunc(x) as real < Trunc(y) as real + 1.0;
  }

  /** Rounding toward zero leaves a whole number unchanged. */
  lemma TruncOfInt(c: int)
    ensures Trunc(c as real) == c
  {
  }
}
