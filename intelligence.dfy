/** The anomaly auditor: structural outliers found by an isolation-forest
    labeller over the per-pincode totals, the three-sigma audit of those
    totals, the per-pincode trailing-window spike detector, and the daily
    series handed to the seasonal decomposition. */
module Intelligence {
  import opened Wrappers
  import opened Orders
  import opened Sorting
  import opened Grouping
  import opened Stats
  import opened Records

  // ---- the per-pincode profile ----

  /** `df.groupby('pincode')[col].sum().reset_index()`: one row per distinct
      pincode, in ascending pincode order, holding the column's sum over
      that pincode's rows. */
  function Profile(rows: seq<Row>, col: AgeColumn): (p: seq<Group<string>>)
    ensures KeysIncreasing(p, StrLess)
    ensures KeySet(p) == RowKeys(rows, PincodeOf)
    ensures forall i :: 0 <= i < |p| ==> p[i].total == KeySum(rows, PincodeOf, Column(col), p[i].key)
    ensures SumTotals(p) == ValueSum(rows, Column(col))
  {
    StrLessIsStrictTotalOrder();
    var p := GroupSum(rows, PincodeOf, Column(col), StrLess);
    assert forall i :: 0 <= i < |p| ==> p[i].total == KeySum(rows, PincodeOf, Column(col), p[i].key) by {
      forall i | 0 <= i < |p| ensures p[i].total == KeySum(rows, PincodeOf, Column(col), p[i].key) {
        GroupSumAt(rows, PincodeOf, Column(col), StrLess, i);
      }
    }
    p
  }

  /** The profile does not depend on the order of the input rows. */
  lemma ProfileOrderFree(rows: seq<Row>, rows': seq<Row>, col: AgeColumn)
    requires multiset(rows) == multiset(rows')
    ensures Profile(rows, col) == Profile(rows', col)
  {
    StrLessIsStrictTotalOrder();
    GroupSumPermutation(rows, rows', PincodeOf, Column(col), StrLess);
  }

  // ---- structural outliers (detect_anomalies) ----

  /** A profile row with the labeller's verdict (`anomaly_score`, -1 for an
      outlier) and its score (`risk_factor`). */
  datatype Scored = Scored(pincode: string, total: int, anomalyScore: int, riskFactor: real)

  predicate IsOutlier(x: Scored) {
    x.anomalyScore == -1
  }

  /** `sort_values(by=col, ascending=False)`. */
  predicate TotalAbove(a: Scored, b: Scored) {
    a.total > b.total
  }

  /** The profile with its two model columns. The isolation forest is a
      function of the totals column: `verdict(totals, i)` is `fit_predict`'s
      verdict on row i and `score(totals, i)` its `decision_function` value. */
  function ScoredProfile(p: seq<Group<string>>, verdict: (seq<int>, nat) -> int, score: (seq<int>, nat) -> real): seq<Scored> {
    seq(|p|, i requires 0 <= i < |p| => Scored(p[i].key, p[i].total, verdict(Totals(p), i), score(Totals(p), i)))
  }

  /** What `detect_anomalies` returns: nothing for an empty table, otherwise
      exactly the profile rows labelled -1, by total descending. pandas'
      sort is not stable, so the order of equal totals is not promised. */
  function Anomalies(rows: seq<Row>, col: AgeColumn, verdict: (seq<int>, nat) -> int, score: (seq<int>, nat) -> real): (r: seq<Scored>)
    ensures |rows| == 0 ==> r == []
    ensures SortedBy(r, TotalAbove)
    ensures |rows| > 0 ==> multiset(r) == multiset(Keep(ScoredProfile(Profile(rows, col), verdict, score), IsOutlier))
    ensures forall x :: x in r <==>
      |rows| > 0 && IsOutlier(x) && x in ScoredProfile(Profile(rows, col), verdict, score)
  {
    if |rows| == 0 then []
    else
      var s := ScoredProfile(Profile(rows, col), verdict, score);
      SelectionMembership(s, IsOutlier, TotalAbove);
      SortBy(Keep(s, IsOutlier), TotalAbove)
  }

  /** Each reported outlier is a distinct pincode of the input. */
  lemma AnomaliesArePincodes(rows: seq<Row>, col: AgeColumn, verdict: (seq<int>, nat) -> int, score: (seq<int>, nat) -> real, x: Scored)
    requires x in Anomalies(rows, col, verdict, score)
    ensures x.pincode in RowKeys(rows, PincodeOf)
    ensures x.total == KeySum(rows, PincodeOf, Column(col), x.pincode)
  {
    var p := Profile(rows, col);
    var s := ScoredProfile(p, verdict, score);
    assert x in s;
    var i :| 0 <= i < |s| && s[i] == x;
    ProfileRowAt(rows, col, p, i);
    ScoredAt(p, verdict, score, i);
  }

  /** Row `i` of the scored profile carries row `i`'s pincode and total. */
  lemma ScoredAt(p: seq<Group<string>>, verdict: (seq<int>, nat) -> int, score: (seq<int>, nat) -> real, i: nat)
    requires i < |p|
    ensures |ScoredProfile(p, verdict, score)| == |p|
    ensures ScoredProfile(p, verdict, score)[i].pincode == p[i].key
    ensures ScoredProfile(p, verdict, score)[i].total == p[i].total
  {
  }

  /** Row `i` of a profile is a pincode of the input with its key sum. */
  lemma ProfileRowAt(rows: seq<Row>, col: AgeColumn, p: seq<Group<string>>, i: nat)
    requires p == Profile(rows, col) && i < |p|
    ensures p[i].key in RowKeys(rows, PincodeOf)
    ensures p[i].total == KeySum(rows, PincodeOf, Column(col), p[i].key)
  {
    assert p[i] in p;
    assert p[i].key in KeySet(p);
  }

  /** Reordering the input rows does not change the outliers reported. */
  lemma AnomaliesOrderFree(rows: seq<Row>, rows': seq<Row>, col: AgeColumn, verdict: (seq<int>, nat) -> int, score: (seq<int>, nat) -> real)
    requires multiset(rows) == multiset(rows')
    ensures Anomalies(rows, col, verdict, score) == Anomalies(rows', col, verdict, score)
  {
    ProfileOrderFree(rows, rows', col);
    assert |rows| == |multiset(rows)| == |rows'|;
  }

  method DetectAnomalies(rows: seq<Row>, col: AgeColumn, verdict: (seq<int>, nat) -> int, score: (seq<int>, nat) -> real)
    returns (result: seq<Scored>)
    ensures result == Anomalies(rows, col, verdict, score)
  {
    if |rows| == 0 {
      return [];
    }
    var profile := Profile(rows, col);
    var totals := Totals(profile);
    var scored: seq<Scored> := [];
    var i := 0;
    while i < |profile|
      invariant 0 <= i <= |profile|
      invariant scored == ScoredProfile(profile, verdict, score)[..i]
    {
      ScoredStep(profile, verdict, score, i);
      scored := scored + [Scored(profile[i].key, profile[i].total, verdict(totals, i), score(totals, i))];
      i := i + 1;
    }
    assert scored == ScoredProfile(profile, verdict, score);
    result := SortBy(Keep(scored, IsOutlier), TotalAbove);
    AnomaliesOf(rows, col, verdict, score);
  }

  /** The loop's next scored row extends the prefix built so far. */
  lemma ScoredStep(p: seq<Group<string>>, verdict: (seq<int>, nat) -> int, score: (seq<int>, nat) -> real, i: nat)
    requires i < |p|
    ensures ScoredProfile(p, verdict, score)[..i] + [Scored(p[i].key, p[i].total, verdict(Totals(p), i), score(Totals(p), i))]
      == ScoredProfile(p, verdict, score)[..i + 1]
  {
  }

  /** A non-empty table's outliers, as the method computes them. */
  lemma AnomaliesOf(rows: seq<Row>, col: AgeColumn, verdict: (seq<int>, nat) -> int, score: (seq<int>, nat) -> real)
    requires |rows| > 0
    ensures Anomalies(rows, col, verdict, score) == SortBy(Keep(ScoredProfile(Profile(rows, col), verdict, score), IsOutlier), TotalAbove)
  {
  }

  // ---- the three-sigma audit (z_score_audit) ----

  /** A profile row with its z-score, carried as the sign of the deviation
      (`deviation` is `n * total - sum`) and the square of the score. */
  datatype ZRow = ZRow(pincode: string, total: int, deviation: int, zSquared: real)

  /** `z_score > 3`. */
  predicate AboveThreeSigma(z: ZRow) {
    z.deviation > 0 && z.zSquared > 9.0
  }

  /** `sort_values(by='z_score', ascending=False)`; every row that passes the
      filter has a positive score, so ordering by its square is the same. */
  predicate ZAbove(a: ZRow, b: ZRow) {
    a.zSquared > b.zSquared
  }

  /** The squared-deviation sum of the totals, zero exactly when their
      standard deviation is. */
  function Spread(p: seq<Group<string>>): int {
    SumSq(Scaled(Totals(p)))
  }

  function ZRows(p: seq<Group<string>>): seq<ZRow>
    requires Spread(p) != 0
  {
    var t := Totals(p);
    seq(|p|, i requires 0 <= i < |p| => ZRow(p[i].key, p[i].total, Scaled(t)[i], ZSquared(t, i)))
  }

  /** The standard deviation is undefined below two pincodes and zero when
      every total is equal; both give the empty result. */
  predicate Degenerate(p: seq<Group<string>>) {
    |p| < 2 || Spread(p) == 0
  }

  /** What `z_score_audit` returns: the pincodes scoring above 3, by score
      descending, or nothing when the standard deviation is 0 or undefined. */
  function ZAudit(rows: seq<Row>, col: AgeColumn): (r: seq<ZRow>)
    ensures Degenerate(Profile(rows, col)) ==> r == []
    ensures SortedBy(r, ZAbove)
    ensures !Degenerate(Profile(rows, col)) ==> multiset(r) == multiset(Keep(ZRows(Profile(rows, col)), AboveThreeSigma))
    ensures forall x :: x in r <==>
      !Degenerate(Profile(rows, col)) && AboveThreeSigma(x) && x in ZRows(Profile(rows, col))
  {
    var p := Profile(rows, col);
    if Degenerate(p) then []
    else
      SelectionMembership(ZRows(p), AboveThreeSigma, ZAbove);
      SortBy(Keep(ZRows(p), AboveThreeSigma), ZAbove)
  }

  /** The score test in integers: z > 3 exactly when the deviation is
      positive and (n - 1) * deviation^2 > 9 * the squared-deviation sum. */
  lemma AboveThreeSigmaExactly(p: seq<Group<string>>, i: nat)
    requires Spread(p) != 0 && i < |p|
    ensures AboveThreeSigma(ZRows(p)[i]) <==>
      Scaled(Totals(p))[i] > 0 && (|p| - 1) * (Scaled(Totals(p))[i] * Scaled(Totals(p))[i]) > 9 * Spread(p)
  {
    var d := Scaled(Totals(p))[i];
    SumSqNonNegative(Scaled(Totals(p)));
    RatioAbove((|p| - 1) * (d * d), Spread(p), 9);
  }

  /** If every pincode has the same total, nothing is reported. */
  lemma ZAuditUniform(rows: seq<Row>, col: AgeColumn)
    requires forall i, j :: 0 <= i < j < |Profile(rows, col)| ==> Profile(rows, col)[i].total == Profile(rows, col)[j].total
    ensures ZAudit(rows, col) == []
  {
    var p := Profile(rows, col);
    if |p| > 0 {
      VarianceZero(Totals(p));
      assert forall j :: 0 <= j < |p| ==> Totals(p)[j] == Totals(p)[0] by {
        forall j | 0 <= j < |p| ensures Totals(p)[j] == Totals(p)[0] {
          if j > 0 {
            assert p[0].total == p[j].total;
          }
        }
      }
    }
  }

  /** Every reported pincode's total is above the mean of the totals. */
  lemma ZAuditAboveMean(rows: seq<Row>, col: AgeColumn, x: ZRow)
    requires x in ZAudit(rows, col)
    ensures |Profile(rows, col)| > 0 && x.total as real > Mean(Totals(Profile(rows, col)))
  {
    var p := Profile(rows, col);
    assert !Degenerate(p) && x.deviation > 0 && x in ZRows(p);
    var t := Totals(p);
    var zs := ZRows(p);
    var i :| 0 <= i < |zs| && x == zs[i];
    ZRowAt(p, i);
    AboveMean(t, i);
  }

  /** Row `i` of the scored profile carries the `i`th total and its deviation. */
  lemma ZRowAt(p: seq<Group<string>>, i: nat)
    requires Spread(p) != 0 && i < |p|
    ensures ZRows(p)[i].total == Totals(p)[i]
    ensures ZRows(p)[i].deviation == |Totals(p)| * Totals(p)[i] - Sum(Totals(p))
  {
  }

  /** Ten or fewer pincodes can never produce a finding: by Samuelson's
      inequality no sample z-score of n values exceeds (n - 1) / sqrt(n) < 3. */
  lemma ZAuditSmallGroup(rows: seq<Row>, col: AgeColumn)
    requires |Profile(rows, col)| <= 10
    ensures ZAudit(rows, col) == []
  {
    var p := Profile(rows, col);
    if !Degenerate(p) {
      var zs := ZRows(p);
      forall i | 0 <= i < |zs| ensures !AboveThreeSigma(zs[i]) {
        SmallGroupRow(p, i);
      }
      KeepNone(zs, AboveThreeSigma);
      assert ZAudit(rows, col) == SortBy(Keep(zs, AboveThreeSigma), ZAbove);
    }
  }

  /** Among ten or fewer pincodes no row scores above 3. */
  lemma SmallGroupRow(p: seq<Group<string>>, i: nat)
    requires 2 <= |p| <= 10 && Spread(p) != 0 && i < |p|
    ensures !AboveThreeSigma(ZRows(p)[i])
  {
    SumScaled(Totals(p));
    AboveThreeSigmaExactly(p, i);
    SmallSampleBound(Scaled(Totals(p)), i);
  }

  /** Reordering the input rows does not change the audit. */
  lemma ZAuditOrderFree(rows: seq<Row>, rows': seq<Row>, col: AgeColumn)
    requires multiset(rows) == multiset(rows')
    ensures ZAudit(rows, col) == ZAudit(rows', col)
  {
    ProfileOrderFree(rows, rows', col);
  }

  method ZScoreAudit(rows: seq<Row>, col: AgeColumn) returns (result: seq<ZRow>)
    ensures result == ZAudit(rows, col)
  {
    var stats := Profile(rows, col);
    var totals := Totals(stats);
    if |stats| < 2 || SumSq(Scaled(totals)) == 0 {
      return [];
    }
    var scored := ZScores(stats);
    result := SortBy(Keep(scored, AboveThreeSigma), ZAbove);
  }

  /** `stats['z_score'] = (stats[col] - mean) / std`, row by row. */
  method ZScores(stats: seq<Group<string>>) returns (scored: seq<ZRow>)
    requires Spread(stats) != 0
    ensures scored == ZRows(stats)
  {
    var totals := Totals(stats);
    var deviations := Scaled(totals);
    scored := [];
    for i := 0 to |stats|
      invariant scored == ZRows(stats)[..i]
    {
      scored := scored + [ZRow(stats[i].key, stats[i].total, deviations[i], ZSquared(totals, i))];
    }
    assert scored == ZRows(stats);
  }

  // ---- the trailing-window spike detector (get_rolling_anomalies) ----

  /** `df.sort_values(['pincode', 'date'])`. A sort on several columns is a
      stable lexicographic sort in pandas, so rows with the same pincode and
      date keep their input order. */
  function Ordered(rows: seq<Row>): (s: seq<Row>)
    ensures SortedBy(s, PincodeDateBefore)
    ensures multiset(s) == multiset(rows)
    ensures forall pin, day :: Keep(s, SameReport(pin, day)) == Keep(rows, SameReport(pin, day))
  {
    PincodeDateIsStrictOrder();
    forall pin, day ensures Keep(SortBy(rows, PincodeDateBefore), SameReport(pin, day)) == Keep(rows, SameReport(pin, day)) {
      SameReportTies(pin, day);
      SortStable(rows, PincodeDateBefore, SameReport(pin, day));
    }
    SortBy(rows, PincodeDateBefore)
  }

  /** Two reports of one pincode on one day stay in input order. */
  lemma DuplicateReportsKeepOrder()
    ensures Ordered([Row("P", 10, 100, 0, 0), Row("P", 10, 10, 0, 0)])
      == [Row("P", 10, 100, 0, 0), Row("P", 10, 10, 0, 0)]
  {
    var a, b := Row("P", 10, 100, 0, 0), Row("P", 10, 10, 0, 0);
    PincodeDateIsStrictOrder();
    StrLessIrreflexive("P");
    assert [a, b][..1] == [a];
    assert SortBy([a], PincodeDateBefore) == [a] by {
      assert [a][..0] == [];
    }
  }

  /** The first index of the run of rows ending at `i` that share `s[i]`'s pincode. */
  function GroupStart(s: seq<Row>, i: nat): (g: nat)
    requires i < |s|
    ensures g <= i
  {
    if i == 0 || s[i - 1].pincode != s[i].pincode then i else GroupStart(s, i - 1)
  }

  /** The run from `GroupStart(s, i)` to `i` shares one pincode and cannot be
      extended to the left. */
  lemma {:induction false} GroupStartRun(s: seq<Row>, i: nat)
    requires i < |s|
    ensures forall k :: GroupStart(s, i) <= k <= i ==> s[k].pincode == s[i].pincode
    ensures GroupStart(s, i) == 0 || s[GroupStart(s, i) - 1].pincode != s[i].pincode
  {
    if i > 0 && s[i - 1].pincode == s[i].pincode {
      GroupStartRun(s, i - 1);
    }
  }

  /** `rolling(window, min_periods=1)` within the pincode's rows: the current
      row and at most `w - 1` rows before it. */
  function WindowStart(s: seq<Row>, i: nat, w: nat): nat
    requires i < |s| && w >= 1
  {
    var g := GroupStart(s, i);
    if i + 1 - w > g then i + 1 - w else g
  }

  function Values(s: seq<Row>, col: AgeColumn): seq<int> {
    seq(|s|, k requires 0 <= k < |s| => Count(s[k], col))
  }

  /** The values the rolling statistics of row `i` are taken over; the last
      one is the row's own. */
  function Window(s: seq<Row>, col: AgeColumn, i: nat, w: nat): (win: seq<int>)
    requires i < |s| && w >= 1
    ensures 1 <= |win| <= w && |win| <= i + 1 - GroupStart(s, i)
    ensures win[|win| - 1] == Count(s[i], col)
  {
    Values(s, col)[WindowStart(s, i, w)..i + 1]
  }

  /** The `1e-6` guard of the rolling z-score is 1 / Micro. */
  const Micro: int := 1000000

  /** `(v - rolling_avg) / (rolling_std + 1e-6) > 3` for a value v whose
      window has n values, scaled deviation d = n * v - sum and squared
      deviation sum q = the sum of the squared scaled deviations. Writing
      e = Micro * d - 3 * n, the test reads e / (Micro * n) > 3 * std with
      std^2 = q / (n^2 (n - 1)), that is e > 0 and
      (n - 1) * e^2 > 9 * Micro^2 * q. A single value has an undefined (NaN)
      standard deviation and never passes. */
  predicate AboveThreshold(n: int, d: int, q: int) {
    var e := Micro * d - 3 * n;
    n >= 2 && e > 0 && (n - 1) * (e * e) > 9 * (Micro * Micro) * q
  }

  /** The last value of the window spikes against the window. */
  predicate Spike(win: seq<int>)
    requires |win| >= 1
  {
    AboveThreshold(|win|, Scaled(win)[|win| - 1], SumSq(Scaled(win)))
  }

  /** A row with its value and the statistics of its trailing window: the
      number of values, their sum and their squared scaled deviation sum.
      `rolling_avg`, `rolling_std` and the flag are functions of these. */
  datatype Reading = Reading(row: Row, value: int, size: nat, windowSum: int, spread: int)

  /** `rolling_avg`. */
  function RollingAvg(r: Reading): real {
    if r.size == 0 then 0.0 else r.windowSum as real / r.size as real
  }

  /** The square of `rolling_std`; None where pandas has NaN. */
  function RollingVariance(r: Reading): Option<real> {
    if r.size < 2 then None else Some(r.spread as real / (r.size * r.size * (r.size - 1)) as real)
  }

  /** `rolling_z > 3`. */
  predicate IsSpike(r: Reading) {
    AboveThreshold(r.size, r.size * r.value - r.windowSum, r.spread)
  }

  /** `sort_values(by='date', ascending=False)`. */
  predicate DateAfter(a: Reading, b: Reading) {
    a.row.date > b.row.date
  }

  /** The reading of a row whose window is `win`. */
  function ReadingOf(row: Row, win: seq<int>): Reading
    requires |win| >= 1
  {
    Reading(row, win[|win| - 1], |win|, Sum(win), SumSq(Scaled(win)))
  }

  /** A reading's columns are the window's mean, sample variance and spike test. */
  lemma ReadingStatistics(row: Row, win: seq<int>)
    requires |win| >= 1
    ensures RollingAvg(ReadingOf(row, win)) == Mean(win)
    ensures RollingVariance(ReadingOf(row, win)) == if |win| >= 2 then Some(SampleVariance(win)) else None
    ensures IsSpike(ReadingOf(row, win)) <==> Spike(win)
  {
  }

  function ReadingAt(s: seq<Row>, col: AgeColumn, w: nat, i: nat): Reading
    requires i < |s| && w >= 1
  {
    ReadingOf(s[i], Window(s, col, i, w))
  }

  function Readings(s: seq<Row>, col: AgeColumn, w: nat): seq<Reading>
    requires w >= 1
  {
    seq(|s|, i requires 0 <= i < |s| => ReadingAt(s, col, w, i))
  }

  /** What `get_rolling_anomalies` returns: the spiking rows, latest first. */
  function RollingAnomalies(rows: seq<Row>, col: AgeColumn, w: nat): (r: seq<Reading>)
    requires w >= 1
    ensures |rows| == 0 ==> r == []
    ensures SortedBy(r, DateAfter)
    ensures |rows| > 0 ==> multiset(r) == multiset(Keep(Readings(Ordered(rows), col, w), IsSpike))
    ensures forall x :: x in r <==> |rows| > 0 && IsSpike(x) && x in Readings(Ordered(rows), col, w)
  {
    if |rows| == 0 then []
    else
      var readings := Readings(Ordered(rows), col, w);
      SelectionMembership(readings, IsSpike, DateAfter);
      SortBy(Keep(readings, IsSpike), DateAfter)
  }

  /** On rows sorted by (pincode, date), row k is in row i's window exactly
      when it has i's pincode, is not after i, and lies fewer than `w`
      positions before it: the window counts rows, not calendar days. Its
      rows are in date order. */
  lemma WindowShape(s: seq<Row>, w: nat, i: nat)
    requires SortedBy(s, PincodeDateBefore) && i < |s| && w >= 1
    ensures forall k :: 0 <= k < |s| ==>
      (WindowStart(s, i, w) <= k <= i <==> k <= i && i - k < w && s[k].pincode == s[i].pincode)
    ensures forall a, b :: WindowStart(s, i, w) <= a < b <= i ==> s[a].date <= s[b].date
  {
    var g := GroupStart(s, i);
    GroupStartRun(s, i);
    GroupStartEdge(s, i);
    forall k | 0 <= k < g ensures s[k].pincode != s[i].pincode {
      BelowRun(s, k, g, i);
    }
    forall a, b | WindowStart(s, i, w) <= a < b <= i ensures s[a].date <= s[b].date {
      assert !PincodeDateBefore(s[b], s[a]);
    }
  }

  /** A pincode's run starts on a row with that pincode, right after a row
      with another. */
  lemma {:induction false} GroupStartEdge(s: seq<Row>, i: nat)
    requires i < |s|
    ensures s[GroupStart(s, i)].pincode == s[i].pincode
    ensures GroupStart(s, i) > 0 ==> s[GroupStart(s, i) - 1].pincode != s[i].pincode
  {
    if i > 0 && s[i - 1].pincode == s[i].pincode {
      GroupStartEdge(s, i - 1);
    }
  }

  /** In (pincode, date) order, where row `g` has row `i`'s pincode and row
      `g - 1` does not, no row before `g` has it. */
  lemma BelowRun(s: seq<Row>, k: nat, g: nat, i: nat)
    requires SortedBy(s, PincodeDateBefore) && k < g <= i < |s|
    requires s[g].pincode == s[i].pincode && s[g - 1].pincode != s[i].pincode
    ensures s[k].pincode != s[i].pincode
  {
    var p, q := s[i].pincode, s[g - 1].pincode;
    SortedPincodes(s, g - 1, g);
    StrLessConnected(p, q);
    if k < g - 1 {
      SortedPincodes(s, k, g - 1);
    }
  }

  /** In (pincode, date) order a later row's pincode is not below an earlier
      row's. */
  lemma SortedPincodes(s: seq<Row>, a: nat, b: nat)
    requires SortedBy(s, PincodeDateBefore) && a < b < |s|
    ensures !StrLess(s[b].pincode, s[a].pincode)
  {
    assert !PincodeDateBefore(s[b], s[a]);
  }

  /** A spike lies above its window's mean. */
  lemma SpikeAboveMean(win: seq<int>)
    requires |win| >= 1 && Spike(win)
    ensures |win| >= 2 && Scaled(win)[|win| - 1] > 0
    ensures win[|win| - 1] as real > Mean(win)
  {
    AboveMean(win, |win| - 1);
  }

  /** A pincode's first row has no standard deviation and is never flagged. */
  lemma FirstRowNotSpike(s: seq<Row>, col: AgeColumn, w: nat, i: nat)
    requires i < |s| && w >= 1 && GroupStart(s, i) == i
    ensures !IsSpike(ReadingAt(s, col, w, i))
    ensures RollingVariance(ReadingAt(s, col, w, i)) == None
  {
  }

  /** A row whose window holds one repeated value is never flagged. */
  lemma ConstantRunNotSpike(s: seq<Row>, col: AgeColumn, w: nat, i: nat)
    requires i < |s| && w >= 1
    requires forall k :: WindowStart(s, i, w) <= k <= i ==> Count(s[k], col) == Count(s[i], col)
    ensures !IsSpike(ReadingAt(s, col, w, i))
  {
    var win := Window(s, col, i, w);
    var ws := WindowStart(s, i, w);
    assert forall j :: 0 <= j < |win| ==> win[j] == Count(s[i], col) by {
      forall j | 0 <= j < |win| ensures win[j] == Count(s[i], col) {
        assert win[j] == Count(s[ws + j], col);
      }
    }
    SumOfConstant(win, Count(s[i], col));
    assert Scaled(win)[|win| - 1] == 0;
    ReadingStatistics(s[i], win);
  }

  lemma SpikeArith(n: int, d: int, e: int, q: int)
    requires n >= 2 && 0 < e <= Micro * d
    requires (n - 1) * (d * d) <= 9 * q
    ensures (n - 1) * (e * e) <= 9 * (Micro * Micro) * q
  {
    var md := Micro * d;
    MulMonotone(e, md, e);
    MulMonotone(e, md, md);
    MulMonotone(e * e, md * md, n - 1);
    assert (n - 1) * (md * md) == (Micro * Micro) * ((n - 1) * (d * d));
    MulMonotone((n - 1) * (d * d), 9 * q, Micro * Micro);
    assert (Micro * Micro) * (9 * q) == 9 * (Micro * Micro) * q;
  }

  /** No value can spike against a window of ten or fewer values: its
      sample z-score is at most (n - 1) / sqrt(n) < 3 (Samuelson). */
  lemma SmallWindowNotSpike(win: seq<int>)
    requires 1 <= |win| <= 10
    ensures !Spike(win)
  {
    var n := |win|;
    if n >= 2 {
      var d := Scaled(win)[n - 1];
      var e := Micro * d - 3 * n;
      SumScaled(win);
      SmallSampleBound(Scaled(win), n - 1);
      if e > 0 {
        SpikeArith(n, d, e, SumSq(Scaled(win)));
      }
    }
  }

  /** The window statistics of `n` equal values `a` followed by `b`: the
      last value's scaled deviation is `n * (b - a)` and the squared
      deviation sum `n * (n + 1) * (b - a)^2`. */
  lemma FlatThenJump(n: nat, a: int, b: int)
    ensures var win := seq(n, _ => a) + [b];
      && Scaled(win)[n] == n * (b - a)
      && SumSq(Scaled(win)) == n * (n + 1) * ((b - a) * (b - a))
  {
    var win := seq(n, _ => a) + [b];
    var devs := seq(n, _ => a - b);
    var last := n * (b - a);
    FlatThenJumpScaled(n, a, b);
    SumSqOfConstant(devs, a - b);
    SumSqAppend(devs, [last]);
    assert SumSq([last]) == last * last + SumSq([last][1..]);
    JumpSquares(n, b - a);
  }

  /** The scaled deviations of `n` values `a` followed by `b`. */
  lemma FlatThenJumpScaled(n: nat, a: int, b: int)
    ensures Scaled(seq(n, _ => a) + [b]) == seq(n, _ => a - b) + [n * (b - a)]
  {
    var flat := seq(n, _ => a);
    var win := flat + [b];
    var sum := n * a + b;
    FlatThenJumpSum(n, a, b);
    forall j | 0 <= j < n ensures Scaled(win)[j] == a - b {
      assert win[j] == a;
      JumpDeviation(n, a, b);
    }
    assert win[n] == b;
    JumpDeviation(n, a, b);
  }

  lemma FlatThenJumpSum(n: nat, a: int, b: int)
    ensures Sum(seq(n, _ => a) + [b]) == n * a + b
  {
    var flat := seq(n, _ => a);
    SumOfConstant(flat, a);
    SumAppend(flat, [b]);
    assert Sum([b]) == b + Sum([b][1..]);
  }

  lemma JumpDeviation(n: int, a: int, b: int)
    ensures (n + 1) * a - (n * a + b) == a - b
    ensures (n + 1) * b - (n * a + b) == n * (b - a)
  {
  }

  lemma JumpSquares(n: int, g: int)
    ensures n * ((-g) * (-g)) + (n * g) * (n * g) == n * (n + 1) * (g * g)
  {
  }

  /** Thirteen days of 10 followed by a day of 100, in a window of 14,
      raise the alarm on the last day: its adaptive z-score exceeds 3. */
  lemma JumpAfterFlatRunSpikes()
    ensures Spike(seq(13, _ => 10) + [100])
  {
    FlatThenJump(13, 10, 100);
    var win := seq(13, _ => 10) + [100];
    assert |win| == 14;
    assert Scaled(win)[13] == 1170;
    assert SumSq(Scaled(win)) == 1474200;
  }

  /** The first ten rows of every pincode are never flagged, whatever the window. */
  lemma EarlyRowNotSpike(s: seq<Row>, col: AgeColumn, w: nat, i: nat)
    requires i < |s| && w >= 1 && i - GroupStart(s, i) < 10
    ensures !IsSpike(ReadingAt(s, col, w, i))
  {
    SmallWindowNotSpike(Window(s, col, i, w));
    ReadingStatistics(s[i], Window(s, col, i, w));
  }

  /** With a window of ten rows or fewer nothing is ever reported. */
  lemma SmallWindowNoAnomalies(rows: seq<Row>, col: AgeColumn, w: nat)
    requires 1 <= w <= 10
    ensures RollingAnomalies(rows, col, w) == []
  {
    if |rows| > 0 {
      var s := Ordered(rows);
      var readings := Readings(s, col, w);
      forall i | 0 <= i < |readings| ensures !IsSpike(readings[i]) {
        SmallWindowNotSpike(Window(s, col, i, w));
        ReadingStatistics(s[i], Window(s, col, i, w));
      }
      KeepNone(readings, IsSpike);
    }
  }

  /** The loop's window of row `i` is the specification's window, once `g`
      is the start of the row's pincode run. */
  lemma WindowFrom(s: seq<Row>, w: nat, i: nat, g: nat)
    requires i < |s| && w >= 1
    requires g == if i == 0 || s[i - 1].pincode != s[i].pincode then i else GroupStart(s, i - 1)
    ensures g == GroupStart(s, i)
    ensures (if i + 1 - w > g then i + 1 - w else g) == WindowStart(s, i, w) <= i
  {
  }

  /** `groupby('pincode')[col].transform(lambda x: x.rolling(w, min_periods=1)...)`
      over rows sorted by (pincode, date), tracking where each pincode's run
      starts. */
  method RollingReadings(sorted: seq<Row>, col: AgeColumn, window: nat) returns (readings: seq<Reading>)
    requires window >= 1
    ensures readings == Readings(sorted, col, window)
  {
    var starts := WindowStarts(sorted, window);
    var values := Values(sorted, col);
    readings := FromStarts(sorted, values, starts);
    ReadingsFromStarts(sorted, col, window, starts);
  }

  /** Each row's reading over the values from its window start. */
  function FromStarts(s: seq<Row>, values: seq<int>, starts: seq<nat>): (r: seq<Reading>)
    requires |starts| == |s| == |values| && forall k :: 0 <= k < |s| ==> starts[k] <= k
    ensures |r| == |s|
  {
    seq(|s|, k requires 0 <= k < |s| => ReadingOf(s[k], values[starts[k]..k + 1]))
  }

  lemma ReadingsFromStarts(s: seq<Row>, col: AgeColumn, w: nat, starts: seq<nat>)
    requires w >= 1 && |starts| == |s|
    requires forall k :: 0 <= k < |s| ==> starts[k] == WindowStart(s, k, w) <= k
    ensures FromStarts(s, Values(s, col), starts) == Readings(s, col, w)
  {
    ReadingsAgree(s, col, w, starts);
    SameElements(FromStarts(s, Values(s, col), starts), Readings(s, col, w));
  }

  lemma ReadingsAgree(s: seq<Row>, col: AgeColumn, w: nat, starts: seq<nat>)
    requires w >= 1 && |starts| == |s|
    requires forall k :: 0 <= k < |s| ==> starts[k] == WindowStart(s, k, w) <= k
    ensures forall k :: 0 <= k < |s| ==> FromStarts(s, Values(s, col), starts)[k] == Readings(s, col, w)[k]
  {
    forall k | 0 <= k < |s| ensures FromStarts(s, Values(s, col), starts)[k] == Readings(s, col, w)[k] {
      ReadingFromStart(s, col, w, k, starts[k]);
    }
  }

  /** Sequences of one length that agree everywhere are equal. */
  lemma SameElements(a: seq<Reading>, b: seq<Reading>)
    requires |a| == |b| && forall k :: 0 <= k < |a| ==> a[k] == b[k]
    ensures a == b
  {
  }

  /** The reading built from a row's window start is the row's reading. */
  lemma ReadingFromStart(s: seq<Row>, col: AgeColumn, w: nat, k: nat, start: nat)
    requires w >= 1 && k < |s| && start == WindowStart(s, k, w) <= k
    ensures ReadingOf(s[k], Values(s, col)[start..k + 1]) == Readings(s, col, w)[k]
  {
  }

  /** One pass over the sorted rows that notes where each pincode's run
      starts and, from it, where each row's trailing window starts. */
  method WindowStarts(sorted: seq<Row>, window: nat) returns (starts: seq<nat>)
    requires window >= 1
    ensures |starts| == |sorted|
    ensures forall k :: 0 <= k < |sorted| ==> starts[k] == WindowStart(sorted, k, window) <= k
  {
    starts := [];
    var g := 0;
    for i := 0 to |sorted|
      invariant |starts| == i
      invariant forall k :: 0 <= k < i ==> starts[k] == WindowStart(sorted, k, window) <= k
      invariant 0 < i ==> g == GroupStart(sorted, i - 1)
    {
      if i == 0 || sorted[i - 1].pincode != sorted[i].pincode {
        g := i;
      }
      var start := if i + 1 - window > g then i + 1 - window else g;
      WindowFrom(sorted, window, i, g);
      starts := starts + [start];
    }
  }

  method GetRollingAnomalies(rows: seq<Row>, col: AgeColumn, window: nat) returns (result: seq<Reading>)
    requires window >= 1
    ensures result == RollingAnomalies(rows, col, window)
  {
    if |rows| == 0 {
      return [];
    }
    var readings := RollingReadings(Ordered(rows), col, window);
    result := SortBy(Keep(readings, IsSpike), DateAfter);
  }

  // ---- the series handed to the seasonal decomposition (decompose_signals) ----

  /** `.asfreq('D').fillna(0)` on a date-indexed total: the totals of every
      day from the first date to the last, 0 on a day without one. */
  function Reindexed(d: seq<Group<int>>): (r: seq<int>)
    requires KeysIncreasing(d, IntLess)
    ensures d == [] ==> r == []
    ensures d != [] ==> |r| == d[|d| - 1].key - d[0].key + 1
  {
    if d == [] then []
    else
      assert |d| == 1 || IntLess(d[0].key, d[|d| - 1].key);
      seq(d[|d| - 1].key - d[0].key + 1, k requires 0 <= k <= d[|d| - 1].key - d[0].key => GroupTotal(d, d[0].key + k))
  }

  /** Every date lies between the first and the last. */
  lemma ReindexedCovers(d: seq<Group<int>>)
    requires KeysIncreasing(d, IntLess) && d != []
    ensures forall j :: 0 <= j < |d| ==> d[0].key <= d[j].key <= d[|d| - 1].key
  {
    forall j | 0 < j < |d| - 1 ensures d[0].key <= d[j].key <= d[|d| - 1].key {
      assert IntLess(d[0].key, d[j].key) && IntLess(d[j].key, d[|d| - 1].key);
    }
  }

  /** Filling the missing days with zeros keeps the total. */
  lemma ReindexedTotal(d: seq<Group<int>>)
    requires KeysIncreasing(d, IntLess)
    ensures Sum(Reindexed(d)) == SumTotals(d)
  {
    if d != [] {
      var lo, len := d[0].key, d[|d| - 1].key - d[0].key + 1;
      SumOfSpan(d, lo, len);
      assert Reindexed(d) == seq(len, k requires 0 <= k < len => GroupTotal(d, lo + k));
      ReindexedCovers(d);
      SpanCovers(d, lo, len);
    }
  }

  /** Entry `k` of `s` is the total of the column over the rows dated
      `lo + k`. */
  predicate DayTotals(s: seq<int>, rows: seq<Row>, col: AgeColumn, lo: int) {
    forall k :: 0 <= k < |s| ==> s[k] == KeySum(rows, DateOf, Column(col), lo + k)
  }

  /** The daily series of the column: one entry per calendar day from the
      earliest row date to the latest, each the total of that day's rows
      (0 on a day without rows), adding up to the column total. */
  function DailySeries(rows: seq<Row>, col: AgeColumn): (s: seq<int>)
    ensures rows == [] ==> s == []
    ensures rows != [] ==> |s| == MaxDate(rows) - MinDate(rows) + 1
    ensures rows != [] ==> DayTotals(s, rows, col, MinDate(rows))
    ensures Sum(s) == ValueSum(rows, Column(col))
  {
    DailySeriesFacts(rows, col);
    Reindexed(DailyTotals(rows, col))
  }

  /** The facts `DailySeries` states, about the reindexed daily totals. */
  lemma DailySeriesFacts(rows: seq<Row>, col: AgeColumn)
    ensures var s := Reindexed(DailyTotals(rows, col));
      && (rows == [] ==> s == [])
      && (rows != [] ==> |s| == MaxDate(rows) - MinDate(rows) + 1)
      && (rows != [] ==> DayTotals(s, rows, col, MinDate(rows)))
      && Sum(s) == ValueSum(rows, Column(col))
  {
    var d := DailyTotals(rows, col);
    ReindexedTotal(d);
    if rows != [] {
      DailyDates(rows, col);
      DailyEntries(rows, col);
    }
  }

  /** Day `k` of the reindexed daily totals is the column total of the
      rows dated `k` days after the first date. */
  lemma DailyEntries(rows: seq<Row>, col: AgeColumn)
    requires rows != []
    ensures var d := DailyTotals(rows, col);
      d != [] && DayTotals(Reindexed(d), rows, col, d[0].key)
  {
    var d := DailyTotals(rows, col);
    assert forall x :: GroupTotal(d, x) == KeySum(rows, DateOf, Column(col), x);
    GroupDayTotals(d, rows, col);
  }

  /** Reindexing group totals that are the column's day sums gives a series
      of day totals. */
  lemma GroupDayTotals(d: seq<Group<int>>, rows: seq<Row>, col: AgeColumn)
    requires KeysIncreasing(d, IntLess) && d != []
    requires forall x :: GroupTotal(d, x) == KeySum(rows, DateOf, Column(col), x)
    ensures DayTotals(Reindexed(d), rows, col, d[0].key)
  {
    ReindexedAt(d);
  }

  /** Day `k` of the reindexed table holds the total of the `k`th day after
      the first. */
  lemma ReindexedAt(d: seq<Group<int>>)
    requires KeysIncreasing(d, IntLess) && d != []
    ensures forall k :: 0 <= k < |Reindexed(d)| ==> Reindexed(d)[k] == GroupTotal(d, d[0].key + k)
  {
  }

  /** `decompose_signals`: the series STL is fitted on, or None when it spans
      fewer than 14 days (an empty table included). The decomposition
      itself is not modelled. */
  function Decompose(rows: seq<Row>, col: AgeColumn): (r: Option<seq<int>>)
    ensures rows == [] ==> r == None
    ensures r.Some? <==> rows != [] && MaxDate(rows) - MinDate(rows) + 1 >= 14
    ensures r.Some? ==> r.value == DailySeries(rows, col)
    ensures r.Some? ==> |r.value| >= 14 && Sum(r.value) == ValueSum(rows, Column(col))
  {
    var series := DailySeries(rows, col);
    if |series| < 14 then None
    else
      Some(series)
  }

  /** A day without rows holds 0. */
  lemma DailySeriesGap(rows: seq<Row>, col: AgeColumn, k: nat)
    requires rows != [] && k < |DailySeries(rows, col)|
    requires forall r :: r in rows ==> r.date != MinDate(rows) + k
    ensures DailySeries(rows, col)[k] == 0
  {
    SeriesGap(DailySeries(rows, col), rows, col, MinDate(rows), k);
  }

  /** In a series of day totals, a day without rows holds 0. */
  lemma SeriesGap(s: seq<int>, rows: seq<Row>, col: AgeColumn, lo: int, k: nat)
    requires DayTotals(s, rows, col, lo) && k < |s|
    requires forall r :: r in rows ==> r.date != lo + k
    ensures s[k] == 0
  {
    assert lo + k !in RowKeys(rows, DateOf);
    KeySumAbsent(rows, DateOf, Column(col), lo + k);
  }

  /** The sum of the group totals of the `len` consecutive keys from `lo`. */
  function SpanTotal(d: seq<Group<int>>, lo: int, len: nat): int
    decreases len
  {
    if len == 0 then 0 else GroupTotal(d, lo) + SpanTotal(d, lo + 1, len - 1)
  }

  lemma {:induction false} SumOfSpan(d: seq<Group<int>>, lo: int, len: nat)
    ensures Sum(seq(len, k requires 0 <= k < len => GroupTotal(d, lo + k))) == SpanTotal(d, lo, len)
    decreases len
  {
    if len > 0 {
      var s := seq(len, k requires 0 <= k < len => GroupTotal(d, lo + k));
      assert s[1..] == seq(len - 1, k requires 0 <= k < len - 1 => GroupTotal(d, lo + 1 + k));
      SumOfSpan(d, lo + 1, len - 1);
    }
  }

  lemma {:induction false} SpanPeel(d: seq<Group<int>>, lo: int, len: nat)
    requires d != []
    ensures SpanTotal(d, lo, len) == (if lo <= d[0].key < lo + len then d[0].total else 0) + SpanTotal(d[1..], lo, len)
    decreases len
  {
    if len > 0 {
      SpanPeel(d, lo + 1, len - 1);
    }
  }

  lemma {:induction false} SpanCovers(d: seq<Group<int>>, lo: int, len: nat)
    requires KeysIncreasing(d, IntLess)
    requires forall j :: 0 <= j < |d| ==> lo <= d[j].key < lo + len
    ensures SpanTotal(d, lo, len) == SumTotals(d)
  {
    if d == [] {
      SpanOfNothing(lo, len);
    } else {
      SpanPeel(d, lo, len);
      SpanCovers(d[1..], lo, len);
    }
  }

  lemma {:induction false} SpanOfNothing(lo: int, len: nat)
    ensures SpanTotal([], lo, len) == 0
    decreases len
  {
    if len > 0 {
      SpanOfNothing(lo + 1, len - 1);
    }
  }
}
