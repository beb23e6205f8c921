/** The forecasting engine: when a district reaches its target population
    (`predict_saturation_date`), the burn-up series the dashboard plots
    (`get_burn_trend`) and the projected daily traffic (`predict_traffic`).

    Dates are day numbers, so `timedelta(days=k)` is `+ k` and a date's
    ordinal differs from its day number by a constant. */
module Prediction {
  import opened Orders
  import opened Grouping
  import opened Stats
  import opened Records

  // ---- the maximum ----

  /** The largest value, `Series.max()`. */
  function MaxOf(xs: seq<int>): (m: int)
    requires xs != []
    ensures forall j :: 0 <= j < |xs| ==> xs[j] <= m
  {
    if |xs| == 1 then xs[0]
    else
      var rest := MaxOf(xs[1..]);
      assert forall j :: 0 < j < |xs| ==> xs[j] == xs[1..][j - 1];
      if xs[0] >= rest then xs[0] else rest
  }

  /** A sequence that never decreases ends with its largest value. */
  lemma {:induction false} StepsUpToLast(c: seq<int>, k: nat)
    requires k < |c|
    requires forall j :: 0 < j < |c| ==> c[j - 1] <= c[j]
    ensures c[k] <= c[|c| - 1]
    decreases |c| - k
  {
    if k < |c| - 1 {
      StepsUpToLast(c, k + 1);
    }
  }

  // ---- the burn-up curve of predict_saturation_date ----

  /** `daily[age_col].cumsum()`: the enrolments up to and including each day. */
  function RunningTotals(d: seq<Group<int>>): (c: seq<int>)
    ensures |c| == |d|
  {
    seq(|d|, k requires 0 <= k < |d| => SumTotals(d[..k + 1]))
  }

  /** `(daily['date'] - daily['date'].min()).dt.days`, the first date being the least. */
  function DayNumbers(d: seq<Group<int>>): (n: seq<int>)
    ensures |n| == |d|
  {
    seq(|d|, k requires 0 <= k < |d| => d[k].key - d[0].key)
  }

  /** The cumulative column starts at the first day's sum, adds each day's
      sum in turn and ends at the total of all days. */
  lemma BurnUpCurve(d: seq<Group<int>>)
    ensures d != [] ==> RunningTotals(d)[0] == d[0].total
    ensures forall k :: 0 < k < |d| ==> RunningTotals(d)[k] == RunningTotals(d)[k - 1] + d[k].total
    ensures d != [] ==> RunningTotals(d)[|d| - 1] == SumTotals(d)
  {
    forall k | 0 < k < |d|
      ensures RunningTotals(d)[k] == RunningTotals(d)[k - 1] + d[k].total
    {
      RunningStep(d, k);
    }
    if d != [] {
      RunningFirst(d);
      RunningLast(d);
    }
  }

  lemma RunningStep(d: seq<Group<int>>, k: nat)
    requires 0 < k < |d|
    ensures RunningTotals(d)[k] == RunningTotals(d)[k - 1] + d[k].total
  {
    PrefixStep(d, k);
  }

  lemma RunningFirst(d: seq<Group<int>>)
    requires d != []
    ensures RunningTotals(d)[0] == d[0].total
  {
    var one := d[..1];
    assert one == [d[0]] && one[1..] == [];
    assert SumTotals(one) == d[0].total + SumTotals(one[1..]);
  }

  lemma RunningLast(d: seq<Group<int>>)
    requires d != []
    ensures RunningTotals(d)[|d| - 1] == SumTotals(d)
  {
    var whole := d[..|d|];
    assert RunningTotals(d)[|d| - 1] == SumTotals(whole);
    assert whole == d;
  }

  /** On the daily table the day numbers start at 0, increase strictly and
      end at the span of the dates; the cumulative column ends at the
      column total. */
  lemma BurnUpDays(rows: seq<Row>, col: AgeColumn)
    requires rows != []
    ensures var d := DailyTotals(rows, col);
      DayNumbers(d)[0] == 0
      && DayNumbers(d)[|d| - 1] == MaxDate(rows) - MinDate(rows)
      && (forall j, k :: 0 <= j < k < |d| ==> DayNumbers(d)[j] < DayNumbers(d)[k])
      && RunningTotals(d)[|d| - 1] == ValueSum(rows, Column(col))
  {
    var d := DailyTotals(rows, col);
    DailyDates(rows, col);
    BurnUpCurve(d);
    forall j, k | 0 <= j < k < |d| ensures DayNumbers(d)[j] < DayNumbers(d)[k] {
      assert IntLess(d[j].key, d[k].key);
    }
  }

  /** The maximum is one of the values. */
  lemma {:induction false} MaxOfAttained(xs: seq<int>) returns (j: nat)
    requires xs != []
    ensures j < |xs| && xs[j] == MaxOf(xs)
  {
    if |xs| == 1 {
      j := 0;
    } else {
      var i := MaxOfAttained(xs[1..]);
      j := if xs[0] >= MaxOf(xs[1..]) then 0 else i + 1;
    }
  }

  /** A sequence that never decreases has its last value as its maximum. */
  lemma MaxOfNondecreasing(c: seq<int>)
    requires c != []
    requires forall j :: 0 < j < |c| ==> c[j - 1] <= c[j]
    ensures MaxOf(c) == c[|c| - 1]
  {
    var j := MaxOfAttained(c);
    StepsUpToLast(c, j);
  }

  /** When no daily sum is negative the cumulative column never decreases,
      so its maximum, `current_total`, is the total of all days. */
  lemma CurrentTotal(d: seq<Group<int>>)
    requires d != []
    requires forall k :: 0 <= k < |d| ==> d[k].total >= 0
    ensures MaxOf(RunningTotals(d)) == SumTotals(d)
  {
    var c := RunningTotals(d);
    BurnUpCurve(d);
    assert forall j :: 0 < j < |c| ==> c[j - 1] <= c[j] by {
      forall j | 0 < j < |c| ensures c[j - 1] <= c[j] {
        assert c[j] == c[j - 1] + d[j].total;
      }
    }
    MaxOfNondecreasing(c);
  }

  /** No negative count gives no negative daily sum. */
  lemma DailyNonNegative(rows: seq<Row>, col: AgeColumn)
    requires forall r :: r in rows ==> Count(r, col) >= 0
    ensures forall k :: 0 <= k < |DailyTotals(rows, col)| ==> DailyTotals(rows, col)[k].total >= 0
  {
    forall k | 0 <= k < |DailyTotals(rows, col)| ensures DailyTotals(rows, col)[k].total >= 0 {
      DailyTotalAt(rows, col, k);
      KeySumNonNegative(rows, DateOf, Column(col), DailyTotals(rows, col)[k].key);
    }
  }

  /** A column that is zero everywhere gives zero daily sums. */
  lemma DailyZero(rows: seq<Row>, col: AgeColumn)
    requires forall r :: r in rows ==> Count(r, col) == 0
    ensures forall k :: 0 <= k < |DailyTotals(rows, col)| ==> DailyTotals(rows, col)[k].total == 0
  {
    forall k | 0 <= k < |DailyTotals(rows, col)| ensures DailyTotals(rows, col)[k].total == 0 {
      DailyTotalAt(rows, col, k);
      KeySumZero(rows, DateOf, Column(col), DailyTotals(rows, col)[k].key);
    }
  }

  // ---- predict_saturation_date ----

  /** The two values `predict_saturation_date` returns. */
  datatype Forecast =
    | NoData                                  // (None, 0): an empty table or no 'date'
    | Stalled                                 // ("Stalled", 0)
    | AlreadySaturated(velocity: real)        // ("Already Saturated", velocity)
    | CompletesOn(date: int, velocity: real)  // (completion date, velocity)

  /** `model.coef_[0] * boost_factor`: the least-squares slope of the
      cumulative column against the day numbers, scaled by the boost. */
  function Velocity(d: seq<Group<int>>, boost: real): real {
    Slope(DayNumbers(d), RunningTotals(d)) * boost
  }

  /** Steps 3 and 4: the forecast from the adjusted velocity, the current
      total, the last date and the target. */
  function Decide(velocity: real, current: int, last: int, target: int): (f: Forecast)
    ensures !f.NoData?
    ensures f.Stalled? <==> velocity <= 0.0
    ensures f.CompletesOn? <==> velocity > 0.0 && target > current
    ensures f.AlreadySaturated? || f.CompletesOn? ==> f.velocity == velocity > 0.0
    ensures f.CompletesOn? ==> f.date >= last
  {
    if velocity <= 0.0 then Stalled
    else
      var remaining := target - current;
      if remaining <= 0 then AlreadySaturated(velocity)
      else CompletesOn(last + Trunc(remaining as real / velocity), velocity)
  }

  /** The forecast drawn from a non-empty daily table `d` in ascending date
      order, whose last date is `daily['date'].max()`. */
  function ForecastFrom(d: seq<Group<int>>, target: int, boost: real): Forecast
    requires d != []
  {
    Decide(Velocity(d, boost), MaxOf(RunningTotals(d)), d[|d| - 1].key, target)
  }

  /** The forecast for reaching `target` enrolments in column `col`. */
  function SaturationForecast(t: Enrolments, col: AgeColumn, target: int, boost: real): (f: Forecast)
    ensures f.NoData? <==> t.rows == [] || "date" !in t.columns
  {
    if t.rows == [] || "date" !in t.columns then NoData
    else ForecastFrom(DailyTotals(t.rows, col), target, boost)
  }

  /** `predict_saturation_date(df, age_col, target_population, boost_factor)`.
      The age column must exist once the table is non-empty and has dates
      (otherwise pandas raises a KeyError). */
  method PredictSaturationDate(t: Enrolments, col: AgeColumn, target: int, boost: real) returns (f: Forecast)
    requires t.rows != [] && "date" in t.columns ==> ColumnName(col) in t.columns
    ensures f == SaturationForecast(t, col, target, boost)
  {
    if |t.rows| == 0 || "date" !in t.columns {
      return NoData;
    }
    var daily := DailyTotals(t.rows, col);
    f := ForecastDaily(daily, target, boost);
  }

  /** Steps 1 to 4 of `predict_saturation_date` on the daily table. */
  method ForecastDaily(daily: seq<Group<int>>, target: int, boost: real) returns (f: Forecast)
    requires daily != []
    ensures f == ForecastFrom(daily, target, boost)
  {
    var cumulative, dayNum := BurnUp(daily);
    var velocity := Slope(dayNum, cumulative) * boost;
    assert velocity == Velocity(daily, boost);
    var currentTotal := MaxOf(cumulative);
    f := Forecasting(velocity, currentTotal, daily[|daily| - 1].key, target);
  }

  /** Steps 3 and 4 of `predict_saturation_date`. */
  method Forecasting(velocity: real, currentTotal: int, lastDate: int, target: int) returns (f: Forecast)
    ensures f == Decide(velocity, currentTotal, lastDate, target)
  {
    if velocity <= 0.0 {
      return Stalled;
    }
    var remaining := target - currentTotal;
    if remaining <= 0 {
      return AlreadySaturated(velocity);
    }
    var daysNeeded := remaining as real / velocity;
    f := CompletesOn(lastDate + Trunc(daysNeeded), velocity);
  }

  /** Adds the `cumulative` and `day_num` columns to the daily table. */
  method BurnUp(daily: seq<Group<int>>) returns (cumulative: seq<int>, dayNum: seq<int>)
    ensures cumulative == RunningTotals(daily) && dayNum == DayNumbers(daily)
  {
    cumulative, dayNum := [], [];
    var running := 0;
    for i := 0 to |daily|
      invariant |cumulative| == i && |dayNum| == i
      invariant forall k :: 0 <= k < i ==> cumulative[k] == RunningTotals(daily)[k]
      invariant forall k :: 0 <= k < i ==> dayNum[k] == DayNumbers(daily)[k]
      invariant running == SumTotals(daily[..i])
    {
      PrefixStep(daily, i);
      running := running + daily[i].total;
      cumulative := cumulative + [running];
      dayNum := dayNum + [daily[i].key - daily[0].key];
    }
  }

  /** A forecast that completes does so on or after the latest row date. */
  lemma CompletionAfterHistory(t: Enrolments, col: AgeColumn, target: int, boost: real)
    requires SaturationForecast(t, col, target, boost).CompletesOn?
    ensures t.rows != [] && SaturationForecast(t, col, target, boost).date >= MaxDate(t.rows)
  {
    DailyDates(t.rows, col);
  }

  /** A stalled or receding campaign is reported as stalled whatever the
      current total and the target. */
  lemma StalledWhateverTarget(velocity: real, current: int, current': int, last: int, target: int, target': int)
    requires Decide(velocity, current, last, target).Stalled?
    ensures Decide(velocity, current', last, target').Stalled?
  {
  }

  /** With a positive velocity and no negative daily sum the target counts
      as reached exactly when the total of all days is at least the target. */
  lemma SaturatedWhenReached(d: seq<Group<int>>, target: int, boost: real)
    requires d != [] && Velocity(d, boost) > 0.0
    requires forall k :: 0 <= k < |d| ==> d[k].total >= 0
    ensures ForecastFrom(d, target, boost).AlreadySaturated? <==> SumTotals(d) >= target
  {
    CurrentTotal(d);
  }

  /** The same for the table: with no negative count the target counts as
      reached exactly when the column total is at least the target. */
  lemma TableSaturatedWhenReached(t: Enrolments, col: AgeColumn, target: int, boost: real)
    requires t.rows != [] && "date" in t.columns
    requires forall r :: r in t.rows ==> Count(r, col) >= 0
    requires Velocity(DailyTotals(t.rows, col), boost) > 0.0
    ensures SaturationForecast(t, col, target, boost).AlreadySaturated? <==> ValueSum(t.rows, Column(col)) >= target
  {
    DailyNonNegative(t.rows, col);
    SaturatedWhenReached(DailyTotals(t.rows, col), target, boost);
  }

  /** The completion date lies `n` days after the last date, where `n` is the
      largest whole number of days at the velocity that does not exceed the
      enrolments still missing. */
  lemma CompletionDate(velocity: real, current: int, last: int, target: int)
    requires Decide(velocity, current, last, target).CompletesOn?
    ensures var n := Decide(velocity, current, last, target).date - last;
      0 <= n && target - current > 0
      && n as real * velocity <= (target - current) as real < (n + 1) as real * velocity
  {
    var f := Decide(velocity, current, last, target);
    assert velocity > 0.0 && target - current > 0;
    var remaining := target - current;
    var n := Trunc(remaining as real / velocity);
    assert f.date - last == n;
    WholeDays(remaining, velocity, n);
  }

  /** The whole number of days at `velocity` that fit in `remaining`. */
  lemma WholeDays(remaining: int, velocity: real, n: int)
    requires remaining > 0 && velocity > 0.0 && n == Trunc(remaining as real / velocity)
    ensures 0 <= n && n as real * velocity <= remaining as real < (n + 1) as real * velocity
  {
    var q := remaining as real / velocity;
    PositiveQuotient(remaining as real, velocity);
    assert n as real <= q < (n + 1) as real;
    QuotientTimes(remaining as real, velocity);
    ScaleBetween(n as real, q, (n + 1) as real, velocity);
    assert q * velocity == remaining as real;
    assert remaining as real < (n + 1) as real * velocity;
  }

  lemma QuotientTimes(r: real, v: real)
    requires v != 0.0
    ensures r / v * v == r
  {
  }

  lemma PositiveQuotient(r: real, v: real)
    requires r > 0.0 && v > 0.0
    ensures r / v > 0.0
  {
  }

  /** `a <= q < b` scaled by a positive factor. */
  lemma ScaleBetween(a: real, q: real, b: real, v: real)
    requires a <= q < b && v > 0.0
    ensures a * v <= q * v < b * v
  {
  }

  /** A larger boost of the fitted slope `s` never delays the completion
      date: it raises the velocity, and the target is still ahead. */
  lemma BoostMonotone(s: real, current: int, last: int, target: int, boost: real, boost': real)
    requires 0.0 < boost <= boost'
    requires Decide(s * boost, current, last, target).CompletesOn?
    ensures var f, f' := Decide(s * boost, current, last, target), Decide(s * boost', current, last, target);
      f'.CompletesOn? && f.velocity <= f'.velocity && f'.date <= f.date
  {
    PositiveScale(s, boost, boost');
    var remaining := (target - current) as real;
    DivAntitone(remaining, s * boost, s * boost');
    TruncMonotone(remaining / (s * boost'), remaining / (s * boost));
  }

  /** The same on the daily table. */
  lemma TableBoostMonotone(d: seq<Group<int>>, target: int, boost: real, boost': real)
    requires d != [] && 0.0 < boost <= boost'
    requires ForecastFrom(d, target, boost).CompletesOn?
    ensures var f, f' := ForecastFrom(d, target, boost), ForecastFrom(d, target, boost');
      f'.CompletesOn? && f.velocity <= f'.velocity && f'.date <= f.date
  {
    var s := Slope(DayNumbers(d), RunningTotals(d));
    assert Velocity(d, boost) == s * boost && Velocity(d, boost') == s * boost';
    BoostMonotone(s, MaxOf(RunningTotals(d)), d[|d| - 1].key, target, boost, boost');
  }

  /** A positive product with a positive factor grows with that factor. */
  lemma PositiveScale(s: real, b: real, b': real)
    requires 0.0 < b <= b' && s * b > 0.0
    ensures 0.0 < s * b <= s * b'
  {
  }

  /** Dividing by a larger positive number gives a smaller quotient. */
  lemma DivAntitone(r: real, v: real, v': real)
    requires r > 0.0 && 0.0 < v <= v'
    ensures 0.0 <= r / v' <= r / v
  {
  }

  /** A daily table without enrolments is stalled. */
  lemma NothingEnrolledStalls(d: seq<Group<int>>, target: int, boost: real)
    requires d != []
    requires forall k :: 0 <= k < |d| ==> d[k].total == 0
    ensures ForecastFrom(d, target, boost).Stalled?
  {
    var c := RunningTotals(d);
    forall k | 0 <= k < |d| ensures c[k] == 0 {
      ConstantPrefix(d, 0, k + 1);
    }
    SlopeOfConstant(DayNumbers(d), c, 0);
  }

  /** A district with no enrolment at all in the column is stalled. */
  lemma NoEnrolmentsStall(t: Enrolments, col: AgeColumn, target: int, boost: real)
    requires t.rows != [] && "date" in t.columns
    requires forall r :: r in t.rows ==> Count(r, col) == 0
    ensures SaturationForecast(t, col, target, boost).Stalled?
  {
    DailyZero(t.rows, col);
    NothingEnrolledStalls(DailyTotals(t.rows, col), target, boost);
  }

  /** Groups all of whose totals are `c` have `n * c` in their first `n`. */
  lemma {:induction false} ConstantPrefix(d: seq<Group<int>>, c: int, n: nat)
    requires n <= |d|
    requires forall k :: 0 <= k < |d| ==> d[k].total == c
    ensures SumTotals(d[..n]) == n * c
  {
    if n == 0 {
      assert d[..0] == [];
    } else {
      ConstantPrefix(d, c, n - 1);
      PrefixStep(d, n - 1);
    }
  }

  /** `c` enrolments on each of at least two consecutive days give a
      velocity of `c` per day before the boost. */
  lemma SteadyRate(d: seq<Group<int>>, c: int)
    requires |d| >= 2
    requires forall k :: 0 <= k < |d| ==> d[k].key == d[0].key + k && d[k].total == c
    ensures Slope(DayNumbers(d), RunningTotals(d)) == c as real
  {
    var xs, ys := DayNumbers(d), RunningTotals(d);
    forall k | 0 <= k < |d| ensures ys[k] == c + c * xs[k] {
      ConstantPrefix(d, c, k + 1);
    }
    VarianceZero(xs);
    assert xs[1] != xs[0];
    SlopeOfLine(xs, ys, c, c);
  }

  /** A campaign enrolling `c > 0` a day on consecutive days, still short of
      its target, completes after the whole number of further days at that
      rate that the remaining enrolments take. */
  lemma SteadyCampaign(d: seq<Group<int>>, c: int, target: int)
    requires |d| >= 2 && c > 0 && target > |d| * c
    requires forall k :: 0 <= k < |d| ==> d[k].key == d[0].key + k && d[k].total == c
    ensures ForecastFrom(d, target, 1.0) == CompletesOn(d[|d| - 1].key + (target - |d| * c) / c, c as real)
  {
    SteadyRate(d, c);
    var cs := RunningTotals(d);
    forall k | 0 < k < |cs| ensures cs[k - 1] <= cs[k] {
      BurnUpCurve(d);
    }
    MaxOfNondecreasing(cs);
    ConstantPrefix(d, c, |d|);
    assert d[..|d|] == d;
    BurnUpCurve(d);
    WholeQuotient(target - |d| * c, c);
  }

  /** Dividing positive whole numbers and truncating is integer division. */
  lemma WholeQuotient(r: int, c: int)
    requires r > 0 && c > 0
    ensures Trunc(r as real / c as real) == r / c
  {
    var q := r / c;
    assert q * c <= r < (q + 1) * c;
    RatioAbove(r, c, q);
    RatioAbove(r, c, q + 1);
  }

  // ---- days saved (the forecasting page) ----

  /** The days the boosted forecast gains on the baseline one: the
      difference of the two completion dates when both are dates, 0 when
      either is a sentinel. The figure is not clamped at zero. */
  function DaysSaved(boosted: Forecast, baseline: Forecast): int {
    if boosted.CompletesOn? && baseline.CompletesOn? then baseline.date - boosted.date else 0
  }

  /** A boost of at least 1 never reports days lost: when the baseline
      completes, the boosted forecast completes no later. */
  lemma BoostSavesDays(t: Enrolments, col: AgeColumn, target: int, boost: real)
    requires boost >= 1.0
    ensures var baseline := SaturationForecast(t, col, target, 1.0);
      var boosted := SaturationForecast(t, col, target, boost);
      && (baseline.CompletesOn? ==> boosted.CompletesOn?)
      && DaysSaved(boosted, baseline) >= 0
  {
    if SaturationForecast(t, col, target, 1.0).CompletesOn? {
      TableBoostMonotone(DailyTotals(t.rows, col), target, 1.0, boost);
    }
  }

  /** A boost between 0 and 1 never reports days saved: the figure is zero
      or negative, since the page does not clamp it. */
  lemma SlowdownLosesDays(t: Enrolments, col: AgeColumn, target: int, boost: real)
    requires 0.0 < boost <= 1.0
    ensures var baseline := SaturationForecast(t, col, target, 1.0);
      var boosted := SaturationForecast(t, col, target, boost);
      && (boosted.CompletesOn? ==> baseline.CompletesOn?)
      && DaysSaved(boosted, baseline) <= 0
  {
    if SaturationForecast(t, col, target, boost).CompletesOn? {
      TableBoostMonotone(DailyTotals(t.rows, col), target, boost, 1.0);
    }
  }

  // ---- get_burn_trend ----

  /** `get_burn_trend(df, age_col)`: the daily sums of the column, or an empty
      frame for an empty table or a missing column. pandas raises a KeyError
      when the table has the column but no dates. */
  function BurnTrend(t: Enrolments, col: AgeColumn): (r: seq<Group<int>>)
    requires t.rows != [] && ColumnName(col) in t.columns ==> "date" in t.columns
    ensures t.rows == [] || ColumnName(col) !in t.columns ==> r == []
    ensures t.rows != [] && ColumnName(col) in t.columns ==>
      r != []
      && KeysIncreasing(r, IntLess)
      && KeySet(r) == RowKeys(t.rows, DateOf)
      && (forall j :: 0 <= j < |r| ==> r[j].total == KeySum(t.rows, DateOf, Column(col), r[j].key))
      && SumTotals(r) == ValueSum(t.rows, Column(col))
  {
    if t.rows == [] || ColumnName(col) !in t.columns then []
    else
      DailyTotalsAt(t.rows, col);
      DailyTotals(t.rows, col)
  }

  lemma DailyTotalsAt(rows: seq<Row>, col: AgeColumn)
    ensures var d := DailyTotals(rows, col);
      forall j :: 0 <= j < |d| ==> d[j].total == KeySum(rows, DateOf, Column(col), d[j].key)
  {
    forall j | 0 <= j < |DailyTotals(rows, col)|
      ensures DailyTotals(rows, col)[j].total == KeySum(rows, DateOf, Column(col), DailyTotals(rows, col)[j].key)
    {
      DailyTotalAt(rows, col, j);
    }
  }

  // ---- predict_traffic ----

  /** One row of the frame `predict_traffic` returns. */
  datatype Projected = Projected(date: int, traffic: int)

  function One(r: Row): int {
    1
  }

  /** `df.groupby('date').size()`: the number of rows of each date, in
      ascending date order. */
  function DailyCounts(rows: seq<Row>): (d: seq<Group<int>>)
    ensures KeysIncreasing(d, IntLess)
    ensures d == [] <==> rows == []
    ensures KeySet(d) == RowKeys(rows, DateOf)
    ensures SumTotals(d) == |rows|
  {
    IntLessIsStrictTotalOrder();
    ValueSumCount(rows, One);
    GroupSum(rows, DateOf, One, IntLess)
  }

  /** Each daily count is the number of rows of its date. */
  lemma DailyCountAt(rows: seq<Row>, k: nat)
    requires k < |DailyCounts(rows)|
    ensures DailyCounts(rows)[k].total == KeySum(rows, DateOf, One, DailyCounts(rows)[k].key)
  {
    IntLessIsStrictTotalOrder();
    GroupSumAt(rows, DateOf, One, IntLess, k);
  }

  /** The daily counts end at the latest row date. */
  lemma CountDates(rows: seq<Row>)
    requires rows != []
    ensures var d := DailyCounts(rows); d != [] && d[|d| - 1].key == MaxDate(rows)
  {
    DateKeysBetween(rows);
    ExtremeKeys(DailyCounts(rows), MinDate(rows), MaxDate(rows));
  }

  /** `LinearRegression().fit(X, y).predict([[x]])`: the least-squares line,
      which passes through the point of means. */
  function Fitted(xs: seq<int>, ys: seq<int>, x: int): real
    requires |xs| == |ys| && xs != []
  {
    Mean(ys) + Slope(xs, ys) * (x as real - Mean(xs))
  }

  /** The count projected for day `x` from the daily counts `d`, truncated. */
  function ProjectedAt(d: seq<Group<int>>, x: int): int
    requires d != []
  {
    Trunc(Fitted(Keys(d), Totals(d), x))
  }

  /** The projections for the `days` days after the last date of the
      non-empty daily counts `d`. */
  function TrafficFrom(d: seq<Group<int>>, days: int): (p: seq<Projected>)
    requires d != []
    ensures |p| == (if days > 0 then days else 0)
    ensures forall k :: 0 <= k < |p| ==> p[k].date == d[|d| - 1].key + k + 1
  {
    var last := d[|d| - 1].key;
    seq(if days > 0 then days else 0, k => Projected(last + k + 1, ProjectedAt(d, last + k + 1)))
  }

  /** The frame `predict_traffic(df, days_to_predict)` returns: one row for
      each of the `days` days after the latest date, or none for an empty
      table or one without dates. */
  function TrafficForecast(t: Enrolments, days: int): (p: seq<Projected>)
    ensures t.rows == [] || "date" !in t.columns ==> p == []
  {
    if t.rows == [] || "date" !in t.columns then []
    else TrafficFrom(DailyCounts(t.rows), days)
  }

  /** The projected dates are the `days` days right after the latest row date. */
  lemma TrafficDates(t: Enrolments, days: int)
    requires t.rows != [] && "date" in t.columns
    ensures |TrafficForecast(t, days)| == (if days > 0 then days else 0)
    ensures forall k :: 0 <= k < |TrafficForecast(t, days)| ==> TrafficForecast(t, days)[k].date == MaxDate(t.rows) + k + 1
  {
    CountDates(t.rows);
  }

  /** `predict_traffic(df, days_to_predict)`. */
  method PredictTraffic(t: Enrolments, days: int) returns (p: seq<Projected>)
    ensures p == TrafficForecast(t, days)
  {
    if |t.rows| == 0 || "date" !in t.columns {
      return [];
    }
    var dailyCounts := DailyCounts(t.rows);
    p := Project(dailyCounts, days);
  }

  /** Steps 2 and 3 of `predict_traffic`: the future dates and their predictions. */
  method Project(dailyCounts: seq<Group<int>>, days: int) returns (p: seq<Projected>)
    requires dailyCounts != []
    ensures p == TrafficFrom(dailyCounts, days)
  {
    var lastDate := dailyCounts[|dailyCounts| - 1].key;
    var n := if days > 0 then days else 0;
    p := [];
    for x := 1 to n + 1
      invariant |p| == x - 1
      invariant forall k :: 0 <= k < x - 1 ==> p[k] == Projected(lastDate + k + 1, ProjectedAt(dailyCounts, lastDate + k + 1))
    {
      var future := lastDate + x;
      p := p + [Projected(future, ProjectedAt(dailyCounts, future))];
    }
  }

  /** A least-squares fit of constant observations `c` is the constant `c`. */
  lemma FittedFlat(xs: seq<int>, ys: seq<int>, c: int, x: int)
    requires |xs| == |ys| && xs != []
    requires forall j :: 0 <= j < |ys| ==> ys[j] == c
    ensures Fitted(xs, ys, x) == c as real
  {
    SlopeOfConstant(xs, ys, c);
    SumOfConstant(ys, c);
    DivCancel(c, |ys|);
  }

  /** A least-squares fit of observations on a line, at two or more distinct
      points, is that line. */
  lemma FittedLine(xs: seq<int>, ys: seq<int>, a: int, b: int, x: int)
    requires |xs| == |ys| && SumSq(Scaled(xs)) != 0
    requires forall j :: 0 <= j < |xs| ==> ys[j] == a + b * xs[j]
    ensures xs != [] && Fitted(xs, ys, x) == (a + b * x) as real
  {
    SlopeOfLine(xs, ys, a, b);
    SumLinear(xs, ys, a, b);
    LineThroughMeans(|xs|, Sum(xs), Sum(ys), a, b, x);
  }

  /** Daily counts that are all `c` project `c` a day. */
  lemma FlatTraffic(d: seq<Group<int>>, days: int, c: int)
    requires d != []
    requires forall j :: 0 <= j < |d| ==> d[j].total == c
    ensures forall k :: 0 <= k < |TrafficFrom(d, days)| ==> TrafficFrom(d, days)[k].traffic == c
  {
    forall k | 0 <= k < |TrafficFrom(d, days)| ensures TrafficFrom(d, days)[k].traffic == c {
      var x := TrafficFrom(d, days)[k].date;
      assert TrafficFrom(d, days)[k].traffic == ProjectedAt(d, x);
      FittedFlat(Keys(d), Totals(d), c, x);
      TruncOfInt(c);
    }
  }

  /** Daily counts lying on a line `a + b * date` over at least two dates
      are projected exactly along that line. */
  lemma LinearTraffic(d: seq<Group<int>>, days: int, a: int, b: int)
    requires |d| >= 2 && KeysIncreasing(d, IntLess)
    requires forall j :: 0 <= j < |d| ==> d[j].total == a + b * d[j].key
    ensures forall k :: 0 <= k < |TrafficFrom(d, days)| ==>
      TrafficFrom(d, days)[k].traffic == a + b * TrafficFrom(d, days)[k].date
  {
    var xs, ys := Keys(d), Totals(d);
    assert IntLess(d[0].key, d[1].key);
    VarianceZero(xs);
    assert xs[1] != xs[0];
    forall k | 0 <= k < |TrafficFrom(d, days)|
      ensures TrafficFrom(d, days)[k].traffic == a + b * TrafficFrom(d, days)[k].date
    {
      var x := TrafficFrom(d, days)[k].date;
      assert TrafficFrom(d, days)[k].traffic == ProjectedAt(d, x);
      FittedLine(xs, ys, a, b, x);
      TruncOfInt(a + b * x);
    }
  }

  /** The least-squares line with slope `b` through means that lie on
      `a + b * x` is `a + b * x`. */
  lemma LineThroughMeans(n: nat, sx: int, sy: int, a: int, b: int, x: int)
    requires n > 0 && sy == n * a + b * sx
    ensures sy as real / n as real + b as real * (x as real - sx as real / n as real) == (a + b * x) as real
  {
    var mx := sx as real / n as real;
    assert mx * n as real == sx as real;
    assert sy as real == n as real * (a as real + b as real * mx);
  }

  /** Every date with the same number `c` of rows gives daily counts of `c`. */
  lemma CountsEqual(rows: seq<Row>, c: int)
    requires forall x :: x in RowKeys(rows, DateOf) ==> KeySum(rows, DateOf, One, x) == c
    ensures forall j :: 0 <= j < |DailyCounts(rows)| ==> DailyCounts(rows)[j].total == c
  {
    var d := DailyCounts(rows);
    forall j | 0 <= j < |d| ensures d[j].total == c {
      DailyCountAt(rows, j);
      assert d[j] in d;
      assert d[j].key in KeySet(d);
    }
  }

  /** On the table: every date with the same number `c` of rows projects `c`
      rows a day. */
  lemma TrafficFlat(t: Enrolments, days: int, c: int)
    requires t.rows != [] && "date" in t.columns
    requires forall x :: x in RowKeys(t.rows, DateOf) ==> KeySum(t.rows, DateOf, One, x) == c
    ensures forall k :: 0 <= k < |TrafficForecast(t, days)| ==> TrafficForecast(t, days)[k].traffic == c
  {
    CountsEqual(t.rows, c);
    FlatTraffic(DailyCounts(t.rows), days, c);
  }

  /** Row counts on a line `a + b * date` give daily counts on that line. */
  lemma CountsOnLine(rows: seq<Row>, a: int, b: int)
    requires forall x :: x in RowKeys(rows, DateOf) ==> KeySum(rows, DateOf, One, x) == a + b * x
    ensures forall j :: 0 <= j < |DailyCounts(rows)| ==> DailyCounts(rows)[j].total == a + b * DailyCounts(rows)[j].key
  {
    var d := DailyCounts(rows);
    forall j | 0 <= j < |d| ensures d[j].total == a + b * d[j].key {
      DailyCountAt(rows, j);
      assert d[j] in d;
      assert d[j].key in KeySet(d);
    }
  }

  /** On the table: row counts on a line `a + b * date` over at least two
      dates are projected along that line. */
  lemma TrafficLine(t: Enrolments, days: int, a: int, b: int)
    requires t.rows != [] && "date" in t.columns
    requires exists r, s :: r in t.rows && s in t.rows && r.date != s.date
    requires forall x :: x in RowKeys(t.rows, DateOf) ==> KeySum(t.rows, DateOf, One, x) == a + b * x
    ensures forall k :: 0 <= k < |TrafficForecast(t, days)| ==>
      TrafficForecast(t, days)[k].traffic == a + b * TrafficForecast(t, days)[k].date
  {
    CountsOnLine(t.rows, a, b);
    TwoDates(t.rows, DailyCounts(t.rows));
    LinearTraffic(DailyCounts(t.rows), days, a, b);
  }

  /** Two rows with different dates make at least two groups. */
  lemma TwoDates(rows: seq<Row>, d: seq<Group<int>>)
    requires exists r, s :: r in rows && s in rows && r.date != s.date
    requires KeySet(d) == RowKeys(rows, DateOf)
    ensures |d| >= 2
  {
    var r, s :| r in rows && s in rows && r.date != s.date;
    assert DateOf(r) in KeySet(d) && DateOf(s) in KeySet(d);
    var g :| g in d && g.key == r.date;
    var h :| h in d && h.key == s.date;
    var i :| 0 <= i < |d| && d[i] == g;
    var j :| 0 <= j < |d| && d[j] == h;
    assert i != j;
  }
}
