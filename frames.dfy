/** The data frames the loaders build, as values: a list of column names
    and rows of cells, one cell per column. */
module Frames {
  import opened Wrappers
  import opened Numerals
  import opened Stats

  /** One value of a column: missing (`NaN`/`None`/`NaT`), an integer, a
      float, a string or a timestamp held as a day number. */
  datatype Cell = Missing | IntCell(i: int) | FloatCell(x: real) | Text(s: string) | Date(day: int)

  datatype Frame = Frame(columns: seq<string>, rows: seq<seq<Cell>>)

  /** Every row has one cell per column, as in any data frame. */
  predicate Rectangular(f: Frame) {
    forall i :: 0 <= i < |f.rows| ==> |f.rows[i]| == |f.columns|
  }

  /** `pd.DataFrame()`. */
  const EmptyFrame := Frame([], [])

  /** `df.empty`: no rows or no columns. */
  predicate IsEmpty(f: Frame) {
    f.rows == [] || f.columns == []
  }

  /** How many columns are called `name`. */
  function Occurrences(cols: seq<string>, name: string): (n: nat)
    ensures n == 0 <==> name !in cols
    ensures n <= |cols|
  {
    if cols == [] then 0
    else
      assert cols == cols[..|cols| - 1] + [cols[|cols| - 1]];
      Occurrences(cols[..|cols| - 1], name) + (if cols[|cols| - 1] == name then 1 else 0)
  }

  /** The position of the first column called `name`. */
  function IndexOf(cols: seq<string>, name: string): (k: nat)
    requires name in cols
    ensures k < |cols| && cols[k] == name && name !in cols[..k]
  {
    if cols[0] == name then 0
    else
      assert name in cols[1..];
      var k := IndexOf(cols[1..], name) + 1;
      assert cols[..k] == [cols[0]] + cols[1..][..k - 1];
      k
  }

  /** A name that occurs once sits only at its first position. */
  lemma {:induction false} OnlyPosition(cols: seq<string>, name: string, j: nat)
    requires Occurrences(cols, name) == 1 && j < |cols| && cols[j] == name
    ensures j == IndexOf(cols, name)
  {
    var k := IndexOf(cols, name);
    if j != k {
      var lo, hi := if j < k then j else k, if j < k then k else j;
      TwoOccurrences(cols, name, lo, hi);
    }
  }

  /** A name at two positions occurs at least twice. */
  lemma {:induction false} TwoOccurrences(cols: seq<string>, name: string, j: nat, k: nat)
    requires j < k < |cols| && cols[j] == name && cols[k] == name
    ensures Occurrences(cols, name) >= 2
  {
    var init := cols[..|cols| - 1];
    if k == |cols| - 1 {
      assert init[j] == name;
    } else {
      assert init[j] == name && init[k] == name;
      TwoOccurrences(init, name, j, k);
    }
  }

  /** The frame with column `k` replaced by `g` of its cells: `df[name] =
      df[name].apply(g)`. */
  function MapColumn(f: Frame, k: nat, g: Cell -> Cell): (r: Frame)
    requires Rectangular(f) && k < |f.columns|
    ensures Rectangular(r) && r.columns == f.columns && |r.rows| == |f.rows|
  {
    Frame(f.columns, seq(|f.rows|, i requires 0 <= i < |f.rows| => f.rows[i][k := g(f.rows[i][k])]))
  }

  /** `apply` changes column `k` cell by cell and no other column. */
  lemma MapColumnAt(f: Frame, k: nat, g: Cell -> Cell, i: nat, j: nat)
    requires Rectangular(f) && k < |f.columns| && i < |f.rows| && j < |f.columns|
    ensures MapColumn(f, k, g).rows[i][j] == if j == k then g(f.rows[i][k]) else f.rows[i][j]
  {
  }

  /** The cells of column `k`, `df[name]`. */
  function ColumnCells(f: Frame, k: nat): (cs: seq<Cell>)
    requires Rectangular(f) && k < |f.columns|
    ensures |cs| == |f.rows| && forall i :: 0 <= i < |cs| ==> cs[i] == f.rows[i][k]
  {
    seq(|f.rows|, i requires 0 <= i < |f.rows| => f.rows[i][k])
  }

  /** `astype(str)`: a string is itself and an integer its decimal digits;
      how a missing value, a float or a timestamp prints is `show`. */
  function AsText(c: Cell, show: Cell -> string): string {
    match c
    case Text(s) => s
    case IntCell(i) => IntText(i)
    case _ => show(c)
  }

  /** Nanoseconds in a day: `to_numeric` of a timestamp gives nanoseconds
      since the epoch. */
  const NanosPerDay := 86_400_000_000_000

  /** An integer or a float. */
  predicate IsNumber(c: Cell) {
    c.IntCell? || c.FloatCell?
  }

  /** `pd.to_numeric(..., errors='coerce')` on one value: numbers pass, a
      numeral is read (as an integer when it has no '.'), anything else
      becomes missing. */
  function ToNumeric(c: Cell): (r: Cell)
    ensures r.Missing? || IsNumber(r)
    ensures c.Missing? ==> r.Missing?
    ensures c.IntCell? || c.FloatCell? ==> r == c
    ensures c.Text? ==> (r.Missing? <==> !Numeral(c.s))
    ensures c.Text? && Numeral(c.s) ==> (r.IntCell? <==> !HasFraction(c.s))
  {
    match c
    case Missing => Missing
    case IntCell(_) => c
    case FloatCell(_) => c
    case Text(s) =>
      if !Numeral(s) then Missing
      else if HasFraction(s) then FloatCell(NumeralValue(s))
      else IntCell(NumeralInt(s))
    case Date(d) => IntCell(d * NanosPerDay)
  }

  /** `pd.to_numeric(...)` then `.fillna(0).astype(int)`: missing becomes 0
      and a float is rounded toward zero. */
  function AgeValue(c: Cell): int {
    match ToNumeric(c)
    case IntCell(i) => i
    case FloatCell(x) => Trunc(x)
    case _ => 0
  }

  /** A value that is missing or not a numeral counts 0. */
  lemma AgeValueUnparsable(c: Cell)
    requires c.Missing? || (c.Text? && !Numeral(c.s))
    ensures AgeValue(c) == 0
  {
  }

  /** A numeral's count is its value rounded toward zero. */
  lemma AgeValueNumeral(s: string)
    requires Numeral(s)
    ensures AgeValue(Text(s)) == Trunc(NumeralValue(s))
  {
    if !HasFraction(s) {
      TruncOfInt(NumeralInt(s));
    }
  }

  /** An integer written out in decimal is read back unchanged. */
  lemma AgeValueOfIntText(i: int)
    ensures AgeValue(Text(IntText(i))) == i
  {
    IntTextRoundTrip(i);
  }

  /** `pd.to_datetime(..., errors='coerce')` on one value: a timestamp stays,
      a missing value stays missing, and anything else is read by `parse`,
      becoming missing (`NaT`) when it is not a date. */
  function ToDate(c: Cell, parse: Cell -> Option<int>): (r: Cell)
    ensures r.Date? || r.Missing?
    ensures c.Date? || c.Missing? ==> r == c
  {
    match c
    case Date(_) => c
    case Missing => Missing
    case _ => if parse(c).Some? then Date(parse(c).value) else Missing
  }

  /** Converting dates a second time changes nothing. */
  lemma ToDateIdempotent(c: Cell, parse: Cell -> Option<int>)
    ensures ToDate(ToDate(c, parse), parse) == ToDate(c, parse)
  {
  }
}
