/** The enrolment table the analytics engine works on: rows of pincode,
    date and the three age-band counts; nothing makes (pincode, date) unique. Dates are day
    numbers, so a `timedelta` of k days is `+ k`. */
module Records {
  import opened Orders
  import opened Sorting
  import opened Grouping

  /** The three age-band count columns. */
  datatype AgeColumn = Age0To5 | Age5To17 | Age18Plus

  function ColumnName(c: AgeColumn): string {
    match c
    case Age0To5 => "age_0_5"
    case Age5To17 => "age_5_17"
    case Age18Plus => "age_18_greater"
  }

  datatype Row = Row(pincode: string, date: int, age0To5: int, age5To17: int, age18Plus: int)

  /** `row[col]`. */
  function Count(r: Row, c: AgeColumn): int {
    match c
    case Age0To5 => r.age0To5
    case Age5To17 => r.age5To17
    case Age18Plus => r.age18Plus
  }

  function PincodeOf(r: Row): string {
    r.pincode
  }

  function DateOf(r: Row): int {
    r.date
  }

  /** The column `col` as a function of the row. */
  function Column(col: AgeColumn): Row -> int {
    r => Count(r, col)
  }

  /** `df.groupby('date')[col].sum().reset_index()`: one total per distinct
      date, in ascending date order, and none for an empty table. */
  function DailyTotals(rows: seq<Row>, col: AgeColumn): (d: seq<Group<int>>)
    ensures KeysIncreasing(d, IntLess)
    ensures d == [] <==> rows == []
    ensures KeySet(d) == RowKeys(rows, DateOf)
    ensures forall x :: GroupTotal(d, x) == KeySum(rows, DateOf, Column(col), x)
    ensures SumTotals(d) == ValueSum(rows, Column(col))
  {
    IntLessIsStrictTotalOrder();
    GroupSum(rows, DateOf, Column(col), IntLess)
  }

  /** Each daily total is the sum of the column over the rows of its date. */
  lemma DailyTotalAt(rows: seq<Row>, col: AgeColumn, k: nat)
    requires k < |DailyTotals(rows, col)|
    ensures DailyTotals(rows, col)[k].total == KeySum(rows, DateOf, Column(col), DailyTotals(rows, col)[k].key)
  {
    IntLessIsStrictTotalOrder();
    GroupSumAt(rows, DateOf, Column(col), IntLess, k);
  }

  /** `df['date'].min()`. */
  function MinDate(rows: seq<Row>): (m: int)
    requires rows != []
    ensures exists r :: r in rows && r.date == m
    ensures forall r :: r in rows ==> m <= r.date
  {
    if |rows| == 1 then rows[0].date
    else
      var rest := MinDate(rows[1..]);
      assert forall r :: r in rows <==> r == rows[0] || r in rows[1..];
      if rows[0].date <= rest then rows[0].date else rest
  }

  /** `df['date'].max()`. */
  function MaxDate(rows: seq<Row>): (m: int)
    requires rows != []
    ensures exists r :: r in rows && r.date == m
    ensures forall r :: r in rows ==> r.date <= m
  {
    if |rows| == 1 then rows[0].date
    else
      var rest := MaxDate(rows[1..]);
      assert forall r :: r in rows <==> r == rows[0] || r in rows[1..];
      if rows[0].date >= rest then rows[0].date else rest
  }

  /** The daily totals run from the earliest date to the latest. */
  lemma DailyDates(rows: seq<Row>, col: AgeColumn)
    requires rows != []
    ensures var d := DailyTotals(rows, col);
      d != [] && d[0].key == MinDate(rows) && d[|d| - 1].key == MaxDate(rows)
  {
    DateKeysBetween(rows);
    ExtremeKeys(DailyTotals(rows, col), MinDate(rows), MaxDate(rows));
  }

  /** The row dates lie between the least and the greatest, both of which occur. */
  lemma DateKeysBetween(rows: seq<Row>)
    requires rows != []
    ensures MinDate(rows) in RowKeys(rows, DateOf) && MaxDate(rows) in RowKeys(rows, DateOf)
    ensures forall x :: x in RowKeys(rows, DateOf) ==> MinDate(rows) <= x <= MaxDate(rows)
  {
    var lo, hi := MinDate(rows), MaxDate(rows);
    var a :| a in rows && a.date == lo;
    var b :| b in rows && b.date == hi;
    assert DateOf(a) in RowKeys(rows, DateOf) && DateOf(b) in RowKeys(rows, DateOf);
    forall x | x in RowKeys(rows, DateOf) ensures lo <= x <= hi {
      var r :| r in rows && DateOf(r) == x;
    }
  }

  /** Keys in increasing order whose least and greatest values are `lo` and `hi` start at `lo` and end at `hi`. */
  lemma ExtremeKeys(d: seq<Group<int>>, lo: int, hi: int)
    requires KeysIncreasing(d, IntLess) && lo in KeySet(d) && hi in KeySet(d)
    requires forall x :: x in KeySet(d) ==> lo <= x <= hi
    ensures d != [] && d[0].key == lo && d[|d| - 1].key == hi
  {
    var g :| g in d && g.key == lo;
    KeysBetween(d);
    assert d[0] in d && d[|d| - 1] in d;
    assert d[0].key in KeySet(d) && d[|d| - 1].key in KeySet(d);
  }

  /** In increasing order, every key lies between the first and the last. */
  lemma KeysBetween(d: seq<Group<int>>)
    requires KeysIncreasing(d, IntLess)
    ensures forall x :: x in KeySet(d) ==> d[0].key <= x <= d[|d| - 1].key
  {
    forall x | x in KeySet(d) ensures d[0].key <= x <= d[|d| - 1].key {
      var g :| g in d && g.key == x;
      var j :| 0 <= j < |d| && d[j] == g;
      if 0 < j < |d| - 1 {
        assert IntLess(d[0].key, d[j].key) && IntLess(d[j].key, d[|d| - 1].key);
      }
    }
  }

  /** A data frame of enrolment rows together with the names of the columns
      it has; the engine checks for a column's presence before using it. */
  datatype Enrolments = Enrolments(columns: set<string>, rows: seq<Row>)

  /** `sort_values(['pincode', 'date'])`: by pincode, then by date. */
  predicate PincodeDateBefore(a: Row, b: Row) {
    StrLess(a.pincode, b.pincode) || (a.pincode == b.pincode && a.date < b.date)
  }

  lemma PincodeDateIsStrictOrder()
    ensures StrictOrder(PincodeDateBefore)
  {
    StrLessIsStrictTotalOrder();
  }

  /** The rows reporting pincode `pin` on day `day`: a tie class of the
      (pincode, date) order. */
  function SameReport(pin: string, day: int): Row -> bool {
    (r: Row) => r.pincode == pin && r.date == day
  }

  lemma SameReportTies(pin: string, day: int)
    ensures TieClass(PincodeDateBefore, SameReport(pin, day))
  {
  }
}
