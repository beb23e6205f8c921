/** `load_dataset`: the enrolment table with its headers normalised, the
    coordinates of each pincode merged in from the mapping file, dates
    parsed and the age counts coerced to integers. The files are given as
    frames: the parquet table, and the mapping file as `read_csv` parses it
    with `dtype=str` (every cell text or missing). */
module DataLoader {
  import opened Wrappers
  import opened Text
  import opened Frames

  // ---- rows ----

  /** Every row has `w` cells. */
  predicate Width(rows: seq<seq<Cell>>, w: nat) {
    forall i :: 0 <= i < |rows| ==> |rows[i]| == w
  }

  /** `dropna(subset=['lat', 'lon'])`: the rows, in order, whose cells `la`
      and `lo` are both present. */
  function Complete(rows: seq<seq<Cell>>, w: nat, la: nat, lo: nat): (r: seq<seq<Cell>>)
    requires Width(rows, w) && la < w && lo < w
    ensures Width(r, w) && |r| <= |rows|
    ensures forall x: seq<Cell> :: x in r <==> x in rows && !x[la].Missing? && !x[lo].Missing?
  {
    if rows == [] then []
    else
      var init, last := rows[..|rows| - 1], rows[|rows| - 1];
      assert rows == init + [last];
      var rest := Complete(init, w, la, lo);
      if !last[la].Missing? && !last[lo].Missing? then rest + [last] else rest
  }

  /** No two rows share the cell in column `k`. */
  predicate UniqueKeys(rows: seq<seq<Cell>>, w: nat, k: nat)
    requires Width(rows, w) && k < w
  {
    forall i, j :: 0 <= i < j < |rows| ==> rows[i][k] != rows[j][k]
  }

  /** The first row whose column `k` holds `key`. */
  function Lookup(rows: seq<seq<Cell>>, w: nat, k: nat, key: Cell): (r: Option<seq<Cell>>)
    requires Width(rows, w) && k < w
    ensures r.None? <==> forall i :: 0 <= i < |rows| ==> rows[i][k] != key
    ensures r.Some? ==> r.value in rows && r.value[k] == key
  {
    if rows == [] then None
    else
      var init, last := rows[..|rows| - 1], rows[|rows| - 1];
      assert rows == init + [last];
      var f := Lookup(init, w, k, key);
      if f.Some? then f else if last[k] == key then Some(last) else None
  }

  /** `drop_duplicates(subset=[...])` with `keep='first'`: for each key, the
      first row that holds it. */
  function Dedup(rows: seq<seq<Cell>>, w: nat, k: nat): (r: seq<seq<Cell>>)
    requires Width(rows, w) && k < w
    ensures Width(r, w) && UniqueKeys(r, w, k) && |r| <= |rows|
    ensures forall key :: Lookup(r, w, k, key) == Lookup(rows, w, k, key)
  {
    if rows == [] then []
    else
      var init, last := rows[..|rows| - 1], rows[|rows| - 1];
      assert rows == init + [last];
      var rest := Dedup(init, w, k);
      if Lookup(rest, w, k, last[k]).Some? then rest
      else
        var r := rest + [last];
        assert r[..|r| - 1] == rest;
        r
  }

  /** Deduplication keeps a row for every key and nothing else: a first row
      is kept, and each kept row is the first with its key. */
  lemma DedupKeepsFirst(rows: seq<seq<Cell>>, w: nat, k: nat, i: nat)
    requires Width(rows, w) && k < w && i < |rows|
    ensures Lookup(rows, w, k, rows[i][k]).Some?
    ensures Lookup(Dedup(rows, w, k), w, k, rows[i][k]) == Lookup(rows, w, k, rows[i][k])
  {
  }

  /** The rows, in order, whose column `k` holds `key`: what a merge pairs
      with a row of the other table. */
  function Matches(rows: seq<seq<Cell>>, w: nat, k: nat, key: Cell): (m: seq<seq<Cell>>)
    requires Width(rows, w) && k < w
    ensures Width(m, w)
  {
    if rows == [] then []
    else
      var init, last := rows[..|rows| - 1], rows[|rows| - 1];
      Matches(init, w, k, key) + (if last[k] == key then [last] else [])
  }

  /** With unique keys a key has at most one match: the row `Lookup` finds. */
  lemma {:induction false} MatchesUnique(rows: seq<seq<Cell>>, w: nat, k: nat, key: Cell)
    requires Width(rows, w) && k < w && UniqueKeys(rows, w, k)
    ensures Matches(rows, w, k, key) == if Lookup(rows, w, k, key).Some? then [Lookup(rows, w, k, key).value] else []
  {
    if rows != [] {
      var init, last := rows[..|rows| - 1], rows[|rows| - 1];
      assert rows == init + [last];
      MatchesUnique(init, w, k, key);
      if last[k] == key {
        assert forall i :: 0 <= i < |init| ==> init[i][k] != key by {
          forall i | 0 <= i < |init| ensures init[i][k] != key {
            assert init[i] == rows[i];
          }
        }
      }
    }
  }

  /** The coordinates a row receives from its match, missing without one. */
  function Coordinates(m: Option<seq<Cell>>, la: nat, lo: nat): seq<Cell>
    requires m.Some? ==> la < |m.value| && lo < |m.value|
  {
    if m.Some? then [m.value[la], m.value[lo]] else [Missing, Missing]
  }

  /** A left row joined with each of its matches, or kept with missing
      coordinates when it has none. */
  function Joined(l: seq<Cell>, ms: seq<seq<Cell>>, w: nat, la: nat, lo: nat): (r: seq<seq<Cell>>)
    requires Width(ms, w) && la < w && lo < w
    ensures |r| == if ms == [] then 1 else |ms|
  {
    if ms == [] then [l + [Missing, Missing]]
    else seq(|ms|, j requires 0 <= j < |ms| => l + [ms[j][la], ms[j][lo]])
  }

  /** `pd.merge(left, right[[key, 'lat', 'lon']], on=key, how='left')` on
      rows: each left row, in order, paired with every right row holding its
      key. */
  function MergeRows(left: seq<seq<Cell>>, pk: nat, right: seq<seq<Cell>>, w: nat, gk: nat, la: nat, lo: nat): seq<seq<Cell>>
    requires forall i :: 0 <= i < |left| ==> pk < |left[i]|
    requires Width(right, w) && gk < w && la < w && lo < w
  {
    if left == [] then []
    else Joined(left[0], Matches(right, w, gk, left[0][pk]), w, la, lo) + MergeRows(left[1..], pk, right, w, gk, la, lo)
  }

  /** Each left row, in order, with the coordinates of its first match, or
      missing ones. */
  function KeptRows(left: seq<seq<Cell>>, pk: nat, right: seq<seq<Cell>>, w: nat, gk: nat, la: nat, lo: nat): (r: seq<seq<Cell>>)
    requires forall i :: 0 <= i < |left| ==> pk < |left[i]|
    requires Width(right, w) && gk < w && la < w && lo < w
    ensures |r| == |left|
    ensures forall i :: 0 <= i < |left| ==> r[i] == left[i] + Coordinates(Lookup(right, w, gk, left[i][pk]), la, lo)
  {
    seq(|left|, i requires 0 <= i < |left| => left[i] + Coordinates(Lookup(right, w, gk, left[i][pk]), la, lo))
  }

  /** The kept rows of a non-empty table: its first row's, then the rest's. */
  lemma KeptRowsCons(left: seq<seq<Cell>>, pk: nat, right: seq<seq<Cell>>, w: nat, gk: nat, la: nat, lo: nat)
    requires left != [] && forall i :: 0 <= i < |left| ==> pk < |left[i]|
    requires Width(right, w) && gk < w && la < w && lo < w
    ensures KeptRows(left, pk, right, w, gk, la, lo)
      == [left[0] + Coordinates(Lookup(right, w, gk, left[0][pk]), la, lo)] + KeptRows(left[1..], pk, right, w, gk, la, lo)
  {
    var a := KeptRows(left, pk, right, w, gk, la, lo);
    var b := [left[0] + Coordinates(Lookup(right, w, gk, left[0][pk]), la, lo)] + KeptRows(left[1..], pk, right, w, gk, la, lo);
    forall i | 0 <= i < |a| ensures a[i] == b[i] {
      if i > 0 {
        assert left[1..][i - 1] == left[i];
      }
    }
  }

  /** With unique keys a row is joined with its one match, or kept alone. */
  lemma JoinedUnique(l: seq<Cell>, right: seq<seq<Cell>>, w: nat, gk: nat, la: nat, lo: nat, key: Cell)
    requires Width(right, w) && gk < w && la < w && lo < w && UniqueKeys(right, w, gk)
    ensures Joined(l, Matches(right, w, gk, key), w, la, lo) == [l + Coordinates(Lookup(right, w, gk, key), la, lo)]
  {
    MatchesUnique(right, w, gk, key);
    var first := Lookup(right, w, gk, key);
    if first.Some? {
      var j := Joined(l, [first.value], w, la, lo);
      assert j[0] == l + Coordinates(first, la, lo);
    }
  }

  /** A left merge against a table with unique keys keeps every left row, in
      order, and appends the coordinates of its match, or missing ones. */
  lemma {:induction false} MergeUnique(left: seq<seq<Cell>>, pk: nat, right: seq<seq<Cell>>, w: nat, gk: nat, la: nat, lo: nat)
    requires forall i :: 0 <= i < |left| ==> pk < |left[i]|
    requires Width(right, w) && gk < w && la < w && lo < w && UniqueKeys(right, w, gk)
    ensures MergeRows(left, pk, right, w, gk, la, lo) == KeptRows(left, pk, right, w, gk, la, lo)
  {
    if left != [] {
      JoinedUnique(left[0], right, w, gk, la, lo, left[0][pk]);
      MergeUnique(left[1..], pk, right, w, gk, la, lo);
      KeptRowsCons(left, pk, right, w, gk, la, lo);
    }
  }

  // ---- the coordinate merge ----

  /** `usecols=[0, 1, 2]`: the first three columns; `read_csv` raises on a
      file with fewer. */
  function FirstThree(f: Frame): (r: Option<Frame>)
    requires Rectangular(f)
    ensures r.None? <==> |f.columns| < 3
    ensures r.Some? ==> Rectangular(r.value) && r.value.columns == f.columns[..3] && |r.value.rows| == |f.rows|
    ensures r.Some? ==> forall i :: 0 <= i < |f.rows| ==> r.value.rows[i] == f.rows[i][..3]
  {
    if |f.columns| < 3 then None
    else Some(Frame(f.columns[..3], seq(|f.rows|, i requires 0 <= i < |f.rows| => f.rows[i][..3])))
  }

  /** The mapping table after reading and cleaning, with the positions of its
      `lat` and `lon` columns. */
  datatype Mapping = Mapping(table: Frame, lat: nat, lon: nat)

  /** A cleaned mapping: three columns, `lat` and `lon` among them, and both
      present in every row. */
  predicate Usable(m: Mapping) {
    && Rectangular(m.table) && |m.table.columns| == 3
    && m.lat < 3 && m.lon < 3 && m.table.columns[m.lat] == "lat" && m.table.columns[m.lon] == "lon"
    && forall i :: 0 <= i < |m.table.rows| ==> IsNumber(m.table.rows[i][m.lat]) && IsNumber(m.table.rows[i][m.lon])
  }

  /** The mapping file's first three columns under the mapping header rule. */
  function MappingColumns(geo: Frame): (r: Option<Frame>)
    requires Rectangular(geo)
    ensures r.None? <==> |geo.columns| < 3
    ensures r.Some? ==> Rectangular(r.value) && r.value.columns == MappingHeaders(geo.columns[..3])
  {
    match FirstThree(geo)
    case None => None
    case Some(g) => Some(g.(columns := MappingHeaders(g.columns)))
  }

  /** `to_numeric` on `lat` and on `lon` (numerals read, anything else
      missing), then the rows where either is missing dropped. */
  function NumericCoordinates(g: Frame, la: nat, lo: nat): (m: Mapping)
    requires Rectangular(g) && |g.columns| == 3 && la < 3 && lo < 3
    requires g.columns[la] == "lat" && g.columns[lo] == "lon"
    ensures Usable(m) && m.table.columns == g.columns && m.lat == la && m.lon == lo
  {
    var g1 := MapColumn(g, la, ToNumeric);
    var g2 := MapColumn(g1, lo, ToNumeric);
    NumericOrMissing(g, la, lo);
    var rows := Complete(g2.rows, 3, la, lo);
    assert forall i :: 0 <= i < |rows| ==> rows[i] in rows;
    Mapping(g2.(rows := rows), la, lo)
  }

  /** After `to_numeric` on both columns each of their cells is a number or
      missing. */
  lemma NumericOrMissing(g: Frame, la: nat, lo: nat)
    requires Rectangular(g) && |g.columns| == 3 && la < 3 && lo < 3
    ensures var g2 := MapColumn(MapColumn(g, la, ToNumeric), lo, ToNumeric);
      forall i :: 0 <= i < |g2.rows| ==>
        (IsNumber(g2.rows[i][la]) || g2.rows[i][la].Missing?) && (IsNumber(g2.rows[i][lo]) || g2.rows[i][lo].Missing?)
  {
    var g1 := MapColumn(g, la, ToNumeric);
    var g2 := MapColumn(g1, lo, ToNumeric);
    forall i | 0 <= i < |g2.rows|
      ensures (IsNumber(g2.rows[i][la]) || g2.rows[i][la].Missing?) && (IsNumber(g2.rows[i][lo]) || g2.rows[i][lo].Missing?)
    {
      MapColumnAt(g, la, ToNumeric, i, la);
      MapColumnAt(g1, lo, ToNumeric, i, la);
      MapColumnAt(g1, lo, ToNumeric, i, lo);
    }
  }

  /** Reading the mapping file and cleaning its coordinates. `None` where a
      step raises: fewer than three columns, or a `lat` or `lon` column that
      is absent or not unique (`geo_df['lat']` is then a frame, which
      `to_numeric` refuses). */
  function CleanMapping(geo: Frame): (r: Option<Mapping>)
    requires Rectangular(geo)
    ensures r.Some? ==> Usable(r.value)
  {
    match MappingColumns(geo)
    case None => None
    case Some(g) =>
      if Occurrences(g.columns, "lat") != 1 || Occurrences(g.columns, "lon") != 1 then None
      else Some(NumericCoordinates(g, IndexOf(g.columns, "lat"), IndexOf(g.columns, "lon")))
  }

  /** The merge key rule on one value: `astype(str).str.split('.').str[0].str.strip()`. */
  function PincodeCell(c: Cell, show: Cell -> string): Cell {
    Text(CanonicalPincode(AsText(c, show)))
  }

  /** Column `k` under the merge key rule. */
  function CanonicalKeys(f: Frame, k: nat, show: Cell -> string): (r: Frame)
    requires Rectangular(f) && k < |f.columns|
    ensures Rectangular(r) && r.columns == f.columns && |r.rows| == |f.rows|
  {
    MapColumn(f, k, c => PincodeCell(c, show))
  }

  /** A left column's name after the merge: pandas suffixes a name both
      tables have, so the main table's own `lat`/`lon` become `lat_x`/`lon_x`. */
  function LeftName(c: string): string {
    if c == "lat" then "lat_x" else if c == "lon" then "lon_x" else c
  }

  /** The name of a coordinate column coming from the mapping: suffixed
      `_y` when the main table had one of that name. */
  function RightName(c: string, cols: seq<string>): string {
    if c in cols then c + "_y" else c
  }

  /** The main table's column names after the merge. */
  function LeftNames(cols: seq<string>): (r: seq<string>)
    ensures |r| == |cols| && forall i :: 0 <= i < |cols| ==> r[i] == LeftName(cols[i])
  {
    seq(|cols|, i requires 0 <= i < |cols| => LeftName(cols[i]))
  }

  /** The merged table's column names: the main table's, then the two
      coordinates. */
  function MergedColumns(cols: seq<string>): (r: seq<string>)
    ensures |r| == |cols| + 2
    ensures forall i :: 0 <= i < |cols| ==> r[i] == LeftName(cols[i])
    ensures r[|cols|] == RightName("lat", cols) && r[|cols| + 1] == RightName("lon", cols)
  {
    LeftNames(cols) + [RightName("lat", cols), RightName("lon", cols)]
  }

  /** The main table holds a coordinate name and its `_x` form. Renaming its
      own `lat` (or `lon`) would then make a second `lat_x` (or `lon_x`), and
      `pd.merge` refuses suffixes that cause duplicate columns, raising
      `MergeError`. */
  predicate SuffixClash(cols: seq<string>) {
    ("lat" in cols && "lat_x" in cols) || ("lon" in cols && "lon_x" in cols)
  }

  /** The clash is exactly two different main-table names that the renaming
      sends to one name, which is when pandas raises. */
  lemma SuffixClashExactly(cols: seq<string>)
    ensures SuffixClash(cols) <==> exists i, k :: 0 <= i < |cols| && 0 <= k < |cols| && cols[i] != cols[k] && LeftName(cols[i]) == LeftName(cols[k])
  {
    if SuffixClash(cols) {
      var a := if "lat" in cols && "lat_x" in cols then "lat" else "lon";
      var i :| 0 <= i < |cols| && cols[i] == a;
      var k :| 0 <= k < |cols| && cols[k] == a + "_x";
      assert cols[i] != cols[k] && LeftName(cols[i]) == LeftName(cols[k]);
    }
  }

  /** The names the merge may introduce or rename. */
  predicate CoordinateName(name: string) {
    name == "lat" || name == "lon" || name == "lat_x" || name == "lon_x" || name == "lat_y" || name == "lon_y"
  }

  /** Outside the coordinate names, renaming is the identity. */
  lemma LeftNameSame(c: string, name: string)
    requires !CoordinateName(name)
    ensures LeftName(c) == name <==> c == name
  {
  }

  /** Renaming the main table's coordinates leaves every other name as often
      as it was. */
  lemma {:induction false} LeftNamesOccurrences(cols: seq<string>, name: string)
    requires !CoordinateName(name)
    ensures Occurrences(LeftNames(cols), name) == Occurrences(cols, name)
  {
    if cols != [] {
      var r := LeftNames(cols);
      var init := cols[..|cols| - 1];
      assert r[..|r| - 1] == LeftNames(init);
      LeftNameSame(cols[|cols| - 1], name);
      LeftNamesOccurrences(init, name);
    }
  }

  /** The merge's columns hold every other name as often as the main table did. */
  lemma MergedColumnsOccurrences(cols: seq<string>, name: string)
    requires !CoordinateName(name)
    ensures Occurrences(MergedColumns(cols), name) == Occurrences(cols, name)
  {
    var r := MergedColumns(cols);
    var left := LeftNames(cols);
    var a, b := RightName("lat", cols), RightName("lon", cols);
    assert a != name && b != name;
    assert r == (left + [a]) + [b];
    assert (left + [a])[..|left|] == left;
    LeftNamesOccurrences(cols, name);
  }

  /** The coordinate names are in header form. */
  lemma CoordinateNamesNormalized(name: string)
    requires CoordinateName(name)
    ensures NormalizeHeader(name) == name
  {
    NormalizeHeaderFixed(name);
  }

  /** A name in header form stays so when renamed by the merge. */
  lemma LeftNameNormalized(c: string)
    requires NormalizeHeader(c) == c
    ensures NormalizeHeader(LeftName(c)) == LeftName(c)
  {
    if c == "lat" || c == "lon" {
      CoordinateNamesNormalized(LeftName(c));
    }
  }

  /** The names of the mapping's coordinates in the merged table are in
      header form. */
  lemma RightNameNormalized(c: string, cols: seq<string>)
    requires c == "lat" || c == "lon"
    ensures NormalizeHeader(RightName(c, cols)) == RightName(c, cols)
  {
    CoordinateNamesNormalized(RightName(c, cols));
  }

  /** Renaming never leaves a `lat` or `lon` on the main table's side. */
  lemma LeftNameNotCoordinate(c: string)
    ensures LeftName(c) != "lat" && LeftName(c) != "lon"
  {
  }

  /** After a merge `lat` and `lon` each name at most one column: the
      mapping's, when the main table had none of its own. */
  lemma MergedCoordinateOnce(cols: seq<string>, name: string)
    requires name == "lat" || name == "lon"
    ensures Occurrences(MergedColumns(cols), name) <= 1
  {
    var r := MergedColumns(cols);
    var left := LeftNames(cols);
    var a, b := RightName("lat", cols), RightName("lon", cols);
    forall c | c in left ensures c != name {
      var k :| 0 <= k < |left| && left[k] == c;
      LeftNameNotCoordinate(cols[k]);
    }
    assert r == (left + [a]) + [b];
    assert (left + [a])[..|left|] == left;
    assert !(a == name && b == name);
  }

  /** Names in header form stay in header form through the merge. */
  lemma MergedColumnsNormalized(cols: seq<string>)
    requires NormalizeHeaders(cols) == cols
    ensures NormalizeHeaders(MergedColumns(cols)) == MergedColumns(cols)
  {
    var r := MergedColumns(cols);
    forall k | 0 <= k < |r| ensures NormalizeHeader(r[k]) == r[k] {
      MergedNameNormalized(cols, k);
    }
    HeadersFixed(r);
  }

  lemma MergedNameNormalized(cols: seq<string>, k: nat)
    requires NormalizeHeaders(cols) == cols && k < |cols| + 2
    ensures NormalizeHeader(MergedColumns(cols)[k]) == MergedColumns(cols)[k]
  {
    if k < |cols| {
      assert NormalizeHeader(cols[k]) == NormalizeHeaders(cols)[k];
      LeftNameNormalized(cols[k]);
    } else if k == |cols| {
      RightNameNormalized("lat", cols);
    } else {
      RightNameNormalized("lon", cols);
    }
  }

  /** Names each in header form make a header list the rule leaves alone. */
  lemma HeadersFixed(cols: seq<string>)
    requires forall k :: 0 <= k < |cols| ==> NormalizeHeader(cols[k]) == cols[k]
    ensures NormalizeHeaders(cols) == cols
  {
  }

  /** The keep-first deduplicated mapping merged into the main table, whose
      key column `pk` is already canonical. */
  function Join(df: Frame, pk: nat, m: Mapping, gk: nat, show: Cell -> string): (r: Frame)
    requires Rectangular(df) && pk < |df.columns| && Usable(m) && gk < 3 && !SuffixClash(df.columns)
    ensures Rectangular(r) && |r.rows| == |df.rows| && r.columns == MergedColumns(df.columns)
  {
    var g := CanonicalKeys(m.table, gk, show);
    var rows := Dedup(g.rows, 3, gk);
    MergeUnique(df.rows, pk, rows, 3, gk, m.lat, m.lon);
    Frame(MergedColumns(df.columns), MergeRows(df.rows, pk, rows, 3, gk, m.lat, m.lon))
  }

  /** The main table after the `try` block of `load_dataset`. Where a step
      raises, the warning is shown and the table is kept as it stood: unchanged
      when the mapping is unusable or the main table has no single `pincode`
      column, with its pincodes canonicalised when the mapping's `pincode`
      column is missing or the merge's suffixes clash. */
  function Merged(df: Frame, geo: Frame, show: Cell -> string): (r: Frame)
    requires Rectangular(df) && Rectangular(geo)
    ensures Rectangular(r) && |r.rows| == |df.rows|
    ensures r.columns == df.columns || r.columns == MergedColumns(df.columns)
    ensures SuffixClash(df.columns) ==> r.columns == df.columns
  {
    match CleanMapping(geo)
    case None => df
    case Some(m) =>
      if Occurrences(df.columns, "pincode") != 1 then df
      else
        var pk := IndexOf(df.columns, "pincode");
        var df1 := CanonicalKeys(df, pk, show);
        if Occurrences(m.table.columns, "pincode") != 1 then df1
        else if SuffixClash(df1.columns) then df1
        else Join(df1, pk, m, IndexOf(m.table.columns, "pincode"), show)
  }

  /** The `try` block of `load_dataset`, step by step; a step that raises
      ends the block with the table as it stands. */
  method MergeCoordinates(df: Frame, geo: Frame, show: Cell -> string) returns (r: Frame)
    requires Rectangular(df) && Rectangular(geo)
    ensures r == Merged(df, geo, show)
  {
    r := df;
    var mapping := CleanMapping(geo);
    if mapping.None? {
      return;
    }
    var m := mapping.value;
    if Occurrences(r.columns, "pincode") != 1 {
      return;
    }
    var pk := IndexOf(r.columns, "pincode");
    r := CanonicalKeys(r, pk, show);
    if Occurrences(m.table.columns, "pincode") != 1 {
      return;
    }
    if SuffixClash(r.columns) {
      return;
    }
    r := Join(r, pk, m, IndexOf(m.table.columns, "pincode"), show);
  }

  /** A row of the merged table: the main table's row followed by the
      coordinates of the first mapping row with its (canonical) key, both
      numbers, or by two missing cells when no mapping row has that key. */
  lemma JoinRow(df: Frame, pk: nat, m: Mapping, gk: nat, show: Cell -> string, i: nat)
    requires Rectangular(df) && pk < |df.columns| && Usable(m) && gk < 3 && m.table.columns[gk] == "pincode"
    requires !SuffixClash(df.columns)
    requires i < |df.rows|
    ensures var first := Lookup(CanonicalKeys(m.table, gk, show).rows, 3, gk, df.rows[i][pk]);
      && Join(df, pk, m, gk, show).rows[i] == df.rows[i] + Coordinates(first, m.lat, m.lon)
      && (first.Some? ==> IsNumber(first.value[m.lat]) && IsNumber(first.value[m.lon]))
  {
    var g := CanonicalKeys(m.table, gk, show);
    var rows := Dedup(g.rows, 3, gk);
    MergeUnique(df.rows, pk, rows, 3, gk, m.lat, m.lon);
    var first := Lookup(g.rows, 3, gk, df.rows[i][pk]);
    if first.Some? {
      var r :| 0 <= r < |g.rows| && g.rows[r] == first.value;
      MapColumnAt(m.table, gk, c => PincodeCell(c, show), r, m.lat);
      MapColumnAt(m.table, gk, c => PincodeCell(c, show), r, m.lon);
    }
  }

  /** When every step of the `try` block succeeds, each row of the result is
      the main row with its canonical pincode, followed by the coordinates of
      the first usable mapping row with that pincode, or by missing cells. */
  lemma MergedRow(df: Frame, geo: Frame, show: Cell -> string, i: nat)
    requires Rectangular(df) && Rectangular(geo) && CleanMapping(geo).Some?
    requires Occurrences(df.columns, "pincode") == 1 && Occurrences(CleanMapping(geo).value.table.columns, "pincode") == 1
    requires !SuffixClash(df.columns)
    requires i < |df.rows|
    ensures var m := CleanMapping(geo).value;
      var pk := IndexOf(df.columns, "pincode");
      var gk := IndexOf(m.table.columns, "pincode");
      var key := PincodeCell(df.rows[i][pk], show);
      var first := Lookup(CanonicalKeys(m.table, gk, show).rows, 3, gk, key);
      && Merged(df, geo, show).columns == MergedColumns(df.columns)
      && Merged(df, geo, show).rows[i] == CanonicalKeys(df, pk, show).rows[i] + Coordinates(first, m.lat, m.lon)
      && (first.Some? ==> IsNumber(first.value[m.lat]) && IsNumber(first.value[m.lon]))
  {
    var m := CleanMapping(geo).value;
    var pk := IndexOf(df.columns, "pincode");
    MapColumnAt(df, pk, c => PincodeCell(c, show), i, pk);
    JoinRow(CanonicalKeys(df, pk, show), pk, m, IndexOf(m.table.columns, "pincode"), show, i);
  }

  /** When the merge's suffixes clash, `pd.merge` raises inside the `try`
      block: the main table keeps its own columns, with canonical pincodes. */
  lemma MergedSuffixClash(df: Frame, geo: Frame, show: Cell -> string)
    requires Rectangular(df) && Rectangular(geo) && Occurrences(df.columns, "pincode") == 1 && SuffixClash(df.columns)
    ensures Merged(df, geo, show) == (if CleanMapping(geo).Some? then CanonicalKeys(df, IndexOf(df.columns, "pincode"), show) else df)
  {
  }

  // ---- final data types ----

  /** The age-band columns, in the order they are coerced. */
  const AgeColumns: seq<string> := ["age_0_5", "age_5_17", "age_18_greater"]

  /** At most one column called `date` and at most one of each age band:
      with two, `df[col]` is a frame, which the conversions refuse. */
  predicate TypedColumnsSingle(cols: seq<string>) {
    Occurrences(cols, "date") <= 1 && forall q :: 0 <= q < |AgeColumns| ==> Occurrences(cols, AgeColumns[q]) <= 1
  }

  /** `df['date'] = pd.to_datetime(df['date'], errors='coerce')` when there
      is a `date` column. */
  function ParseDates(f: Frame, parse: Cell -> Option<int>): (r: Frame)
    requires Rectangular(f)
    ensures Rectangular(r) && r.columns == f.columns && |r.rows| == |f.rows|
  {
    if "date" in f.columns then MapColumn(f, IndexOf(f.columns, "date"), c => ToDate(c, parse)) else f
  }

  /** `df[col] = pd.to_numeric(df[col], errors='coerce').fillna(0).astype(int)`
      when there is a column `col`. */
  function CoerceAge(f: Frame, col: string): (r: Frame)
    requires Rectangular(f)
    ensures Rectangular(r) && r.columns == f.columns && |r.rows| == |f.rows|
  {
    if col in f.columns then MapColumn(f, IndexOf(f.columns, col), c => IntCell(AgeValue(c))) else f
  }

  /** The first `n` age bands coerced, in order. */
  function CoerceAges(f: Frame, n: nat): (r: Frame)
    requires Rectangular(f) && n <= |AgeColumns|
    ensures Rectangular(r) && r.columns == f.columns && |r.rows| == |f.rows|
  {
    if n == 0 then f else CoerceAge(CoerceAges(f, n - 1), AgeColumns[n - 1])
  }

  /** The position of an age band among `AgeColumns`, `|AgeColumns|` for
      any other name. */
  function BandIndex(name: string): (q: nat)
    ensures q <= |AgeColumns|
  {
    if name == "age_0_5" then 0 else if name == "age_5_17" then 1 else if name == "age_18_greater" then 2 else 3
  }

  /** `BandIndex` finds exactly the age bands. */
  lemma BandIndexSpec(name: string)
    ensures BandIndex(name) < |AgeColumns| ==> AgeColumns[BandIndex(name)] == name
    ensures forall q :: 0 <= q < |AgeColumns| ==> BandIndex(AgeColumns[q]) == q
    ensures name in AgeColumns <==> BandIndex(name) < |AgeColumns|
  {
  }

  /** One coercion step: the cells of the band `col` become counts, the
      others keep the values they had. */
  lemma CoerceAgeAt(g: Frame, col: string, i: nat, j: nat)
    requires Rectangular(g) && Occurrences(g.columns, col) <= 1
    requires i < |g.rows| && j < |g.columns|
    ensures CoerceAge(g, col).rows[i][j] == if g.columns[j] == col then IntCell(AgeValue(g.rows[i][j])) else g.rows[i][j]
  {
    if col in g.columns {
      var k := IndexOf(g.columns, col);
      MapColumnAt(g, k, c => IntCell(AgeValue(c)), i, j);
      if g.columns[j] == col {
        OnlyPosition(g.columns, col, j);
      }
    }
  }

  /** After coercing the first `n` bands, a cell of one of them is its count
      and every other cell is as it was. */
  lemma {:induction false} CoerceAgesAt(f: Frame, n: nat, i: nat, j: nat)
    requires Rectangular(f) && n <= |AgeColumns| && TypedColumnsSingle(f.columns)
    requires i < |f.rows| && j < |f.columns|
    ensures CoerceAges(f, n).rows[i][j] == if BandIndex(f.columns[j]) < n then IntCell(AgeValue(f.rows[i][j])) else f.rows[i][j]
  {
    if n > 0 {
      var col := AgeColumns[n - 1];
      CoerceAgesAt(f, n - 1, i, j);
      CoerceAgeAt(CoerceAges(f, n - 1), col, i, j);
      BandIndexSpec(f.columns[j]);
    }
  }

  /** The date column parsed: each of its cells a timestamp or missing, and
      every other cell as it was. */
  lemma ParseDatesAt(f: Frame, parse: Cell -> Option<int>, i: nat, j: nat)
    requires Rectangular(f) && Occurrences(f.columns, "date") <= 1
    requires i < |f.rows| && j < |f.columns|
    ensures ParseDates(f, parse).rows[i][j] == if f.columns[j] == "date" then ToDate(f.rows[i][j], parse) else f.rows[i][j]
  {
    if "date" in f.columns {
      var k := IndexOf(f.columns, "date");
      MapColumnAt(f, k, c => ToDate(c, parse), i, j);
      if f.columns[j] == "date" {
        OnlyPosition(f.columns, "date", j);
      }
    }
  }

  /** Section 3 of `load_dataset`: dates parsed, then the age bands coerced. */
  function Typed(f: Frame, parse: Cell -> Option<int>): (r: Frame)
    requires Rectangular(f)
    ensures Rectangular(r) && r.columns == f.columns && |r.rows| == |f.rows|
  {
    CoerceAges(ParseDates(f, parse), |AgeColumns|)
  }

  /** Each cell after section 3: a date column cell parsed, an age band cell
      counted, any other cell unchanged. */
  lemma TypedAt(f: Frame, parse: Cell -> Option<int>, i: nat, j: nat)
    requires Rectangular(f) && TypedColumnsSingle(f.columns)
    requires i < |f.rows| && j < |f.columns|
    ensures Typed(f, parse).rows[i][j] ==
      if f.columns[j] == "date" then ToDate(f.rows[i][j], parse)
      else if f.columns[j] in AgeColumns then IntCell(AgeValue(f.rows[i][j]))
      else f.rows[i][j]
  {
    ParseDatesAt(f, parse, i, j);
    CoerceAgesAt(ParseDates(f, parse), |AgeColumns|, i, j);
    BandIndexSpec(f.columns[j]);
  }

  /** The main table with the header rule applied. */
  function Normalized(p: Frame): (r: Frame)
    requires Rectangular(p)
    ensures Rectangular(r) && r.rows == p.rows && r.columns == NormalizeHeaders(p.columns)
  {
    Frame(NormalizeHeaders(p.columns), p.rows)
  }

  /** Section 2 of `load_dataset`: the coordinate merge when there is a
      mapping file. */
  function WithCoordinates(f: Frame, mapping: Option<Frame>, show: Cell -> string): (r: Frame)
    requires Rectangular(f) && (mapping.Some? ==> Rectangular(mapping.value))
    ensures Rectangular(r) && |r.rows| == |f.rows|
  {
    if mapping.Some? then Merged(f, mapping.value, show) else f
  }

  /** `load_dataset`: an empty table without the parquet file; otherwise its
      table normalised, merged with the coordinates and typed. */
  function LoadedFrame(parquet: Option<Frame>, mapping: Option<Frame>, show: Cell -> string, parse: Cell -> Option<int>): (r: Frame)
    requires parquet.Some? ==> Rectangular(parquet.value)
    requires mapping.Some? ==> Rectangular(mapping.value)
    ensures Rectangular(r)
    ensures parquet.None? ==> r == EmptyFrame
    ensures parquet.Some? ==> |r.rows| == |parquet.value.rows|
  {
    match parquet
    case None => EmptyFrame
    case Some(p) => Typed(WithCoordinates(Normalized(p), mapping, show), parse)
  }

  /** `load_dataset`, step by step. The files are given as frames (`None`
      when `get_smart_path` finds nothing), dates are read by `parse` and
      values printed by `show`. */
  method LoadDataset(parquet: Option<Frame>, mapping: Option<Frame>, show: Cell -> string, parse: Cell -> Option<int>) returns (df: Frame)
    requires parquet.Some? ==> Rectangular(parquet.value) && TypedColumnsSingle(NormalizeHeaders(parquet.value.columns))
    requires mapping.Some? ==> Rectangular(mapping.value)
    ensures df == LoadedFrame(parquet, mapping, show, parse)
  {
    if parquet.None? {
      return EmptyFrame;
    }
    df := parquet.value;
    df := df.(columns := NormalizeHeaders(df.columns));
    assert df == Normalized(parquet.value);
    if mapping.Some? {
      df := MergeCoordinates(df, mapping.value, show);
    }
    assert df == WithCoordinates(Normalized(parquet.value), mapping, show);
    df := ParseDates(df, parse);
    df := CoerceAgeColumns(df);
  }

  /** The loop over the age bands, each coerced in turn when present. */
  method CoerceAgeColumns(f: Frame) returns (g: Frame)
    requires Rectangular(f)
    ensures g == CoerceAges(f, |AgeColumns|)
  {
    g := f;
    for n := 0 to |AgeColumns|
      invariant g == CoerceAges(f, n)
    {
      g := CoerceAge(g, AgeColumns[n]);
    }
  }

  /** The merge keeps how often each non-coordinate name occurs. */
  lemma MergedOccurrences(df: Frame, geo: Frame, show: Cell -> string, name: string)
    requires Rectangular(df) && Rectangular(geo) && !CoordinateName(name)
    ensures Occurrences(Merged(df, geo, show).columns, name) == Occurrences(df.columns, name)
  {
    MergedColumnsOccurrences(df.columns, name);
  }

  /** The merge adds no second `date` column and no second age band. */
  lemma WithCoordinatesSingle(f: Frame, mapping: Option<Frame>, show: Cell -> string)
    requires Rectangular(f) && (mapping.Some? ==> Rectangular(mapping.value)) && TypedColumnsSingle(f.columns)
    ensures TypedColumnsSingle(WithCoordinates(f, mapping, show).columns)
  {
    if mapping.Some? {
      var g := WithCoordinates(f, mapping, show);
      MergedOccurrences(f, mapping.value, show, "date");
      forall q | 0 <= q < |AgeColumns| ensures Occurrences(g.columns, AgeColumns[q]) <= 1 {
        MergedOccurrences(f, mapping.value, show, AgeColumns[q]);
      }
    }
  }

  /** The loaded table's names are all in header form, its `lat`/`lon`
      suffixes included. */
  lemma LoadedColumnsNormalized(parquet: Option<Frame>, mapping: Option<Frame>, show: Cell -> string, parse: Cell -> Option<int>)
    requires parquet.Some? ==> Rectangular(parquet.value)
    requires mapping.Some? ==> Rectangular(mapping.value)
    ensures var cols := LoadedFrame(parquet, mapping, show, parse).columns;
      NormalizeHeaders(cols) == cols
  {
    if parquet.Some? {
      var f := Normalized(parquet.value);
      NormalizeHeadersIdempotent(parquet.value.columns);
      MergedColumnsNormalized(f.columns);
    }
  }

  /** Each cell of the loaded table: the `date` column parsed, the age bands
      counted, everything else as the merge left it. */
  lemma LoadedCell(parquet: Option<Frame>, mapping: Option<Frame>, show: Cell -> string, parse: Cell -> Option<int>, i: nat, j: nat)
    requires parquet.Some? && Rectangular(parquet.value) && TypedColumnsSingle(NormalizeHeaders(parquet.value.columns))
    requires mapping.Some? ==> Rectangular(mapping.value)
    requires var r := LoadedFrame(parquet, mapping, show, parse); i < |r.rows| && j < |r.columns|
    ensures var r := LoadedFrame(parquet, mapping, show, parse);
      var f := WithCoordinates(Normalized(parquet.value), mapping, show);
      && r.columns == f.columns
      && r.rows[i][j] ==
        if f.columns[j] == "date" then ToDate(f.rows[i][j], parse)
        else if f.columns[j] in AgeColumns then IntCell(AgeValue(f.rows[i][j]))
        else f.rows[i][j]
  {
    var f0 := Normalized(parquet.value);
    WithCoordinatesSingle(f0, mapping, show);
    TypedAt(WithCoordinates(f0, mapping, show), parse, i, j);
  }

  /** Loading leaves `lat` and `lon` each naming at most one column when the
      parquet file does. */
  lemma LoadedCoordinateOnce(parquet: Option<Frame>, mapping: Option<Frame>, show: Cell -> string, parse: Cell -> Option<int>, name: string)
    requires parquet.Some? && Rectangular(parquet.value)
    requires mapping.Some? ==> Rectangular(mapping.value)
    requires name == "lat" || name == "lon"
    requires Occurrences(NormalizeHeaders(parquet.value.columns), name) <= 1
    ensures Occurrences(LoadedFrame(parquet, mapping, show, parse).columns, name) <= 1
  {
    var f := Normalized(parquet.value);
    var w := WithCoordinates(f, mapping, show);
    assert LoadedFrame(parquet, mapping, show, parse).columns == Typed(w, parse).columns == w.columns;
    if mapping.Some? {
      MergedCoordinateOnce(f.columns, name);
    }
  }
}
