/** The engine's data preparation: the coordinate cleaner and the final
    pass over the loaded frame. */
module DataProcessor {
  import opened Wrappers
  import opened Text
  import opened Numerals
  import opened Frames
  import opened DataLoader

  // ---- the pattern `[-+]?\d*\.\d+|\d+` ----

  /** `\d*\.\d+` matches all of `t`: digits and exactly one '.', ending in a digit. */
  predicate UnsignedDecimal(t: string) {
    && |t| >= 2
    && IsDigit(t[|t| - 1])
    && '.' in t
    && (forall k :: 0 <= k < |t| ==> IsDigit(t[k]) || t[k] == '.')
    && (forall k, m :: 0 <= k < m < |t| && t[k] == '.' ==> t[m] != '.')
  }

  /** `[-+]?\d*\.\d+` matches all of `t`. */
  predicate Decimal(t: string) {
    UnsignedDecimal(t) || (t != [] && IsSign(t[0]) && UnsignedDecimal(t[1..]))
  }

  /** `\d+` matches all of `t`. */
  predicate Integer(t: string) {
    t != [] && AllDigits(t)
  }

  /** The whole pattern matches all of `t`. */
  predicate Pattern(t: string) {
    Decimal(t) || Integer(t)
  }

  /** The end of the run of digits that starts at `k`. */
  function DigitEnd(s: string, k: nat): (e: nat)
    requires k <= |s|
    ensures k <= e <= |s|
    ensures forall m :: k <= m < e ==> IsDigit(s[m])
    ensures e == |s| || !IsDigit(s[e])
    decreases |s| - k
  {
    if k < |s| && IsDigit(s[k]) then DigitEnd(s, k + 1) else k
  }

  /** Where the regular expression's match starting at `i` ends, if there is
      one. The decimal alternative is tried first, with the sign when there
      is one; `\d*` and `\d+` are greedy, and backing off `\d*` can never
      expose a '.', so the decimal alternative succeeds exactly when the
      digit run is followed by '.' and a digit. A sign can only start a
      decimal. */
  function MatchAt(s: string, i: nat): (m: Option<nat>)
    requires i < |s|
    ensures m.Some? ==> i < m.value <= |s| && IsDigit(s[m.value - 1])
  {
    var start := if IsSign(s[i]) then i + 1 else i;
    var e := DigitEnd(s, start);
    if e + 1 < |s| && s[e] == '.' && IsDigit(s[e + 1]) then Some(DigitEnd(s, e + 1))
    else if start == i && e > i then Some(e)
    else None
  }

  /** Every position of `s[k..x]` is a digit, so the digit run from `k`
      reaches at least `x`. */
  lemma {:induction false} DigitEndBeyond(s: string, k: nat, x: nat)
    requires k <= x <= |s|
    requires forall m :: k <= m < x ==> IsDigit(s[m])
    ensures x <= DigitEnd(s, k)
    decreases x - k
  {
    if k < x {
      DigitEndBeyond(s, k + 1, x);
    }
  }

  /** The digit run from `k` of `s + t` is that of `s` when `t` does not
      start with a digit. */
  lemma {:induction false} DigitEndAppend(s: string, t: string, k: nat)
    requires k <= |s|
    requires t == [] || !IsDigit(t[0])
    ensures DigitEnd(s + t, k) == DigitEnd(s, k)
    decreases |s| - k
  {
    if k < |s| {
      assert (s + t)[k] == s[k];
      DigitEndAppend(s, t, k + 1);
    }
  }

  /** What `\d*\.\d+` needs of the text from `a` to `b`: the digit run from
      `a` stops at a '.', a digit follows, and the second digit run reaches `b`. */
  lemma UnsignedDecimalShape(s: string, a: nat, b: nat)
    requires a <= b <= |s| && UnsignedDecimal(s[a..b])
    ensures var e := DigitEnd(s, a);
      e + 1 < b && s[e] == '.' && IsDigit(s[e + 1]) && b <= DigitEnd(s, e + 1)
  {
    var t := s[a..b];
    var p :| 0 <= p < |t| && t[p] == '.';
    forall m | a <= m < a + p ensures IsDigit(s[m]) {
      assert t[m - a] == s[m];
    }
    DigitEndBeyond(s, a, a + p);
    assert s[a + p] == t[p];
    assert p + 1 < |t|;
    forall m | a + p + 1 <= m < b ensures IsDigit(s[m]) {
      assert t[m - a] == s[m];
    }
    DigitEndBeyond(s, a + p + 1, b);
  }

  /** A match of `\d+` from `i` to `j` lies inside the digit run from `i`. */
  lemma IntegerShape(s: string, i: nat, j: nat)
    requires i < j <= |s| && Integer(s[i..j])
    ensures IsDigit(s[i]) && j <= DigitEnd(s, i)
  {
    var t := s[i..j];
    forall m | i <= m < j ensures IsDigit(s[m]) {
      assert t[m - i] == s[m];
    }
    DigitEndBeyond(s, i, j);
  }

  /** A match of the pattern starting at `i` is found by `MatchAt`, and the
      match `MatchAt` reports is the longest there is. */
  lemma MatchAtComplete(s: string, i: nat, j: nat)
    requires i < j <= |s|
    ensures Pattern(s[i..j]) ==> MatchAt(s, i).Some? && j <= MatchAt(s, i).value
  {
    var t := s[i..j];
    if UnsignedDecimal(t) {
      assert t[0] == s[i];
      UnsignedFound(s, i, j);
    } else if Decimal(t) {
      assert t[0] == s[i] && t[1..] == s[i + 1..j];
      SignedFound(s, i, j);
    } else if Integer(t) {
      IntegerFound(s, i, j);
    }
  }

  lemma UnsignedFound(s: string, i: nat, j: nat)
    requires i < j <= |s| && !IsSign(s[i]) && UnsignedDecimal(s[i..j])
    ensures MatchAt(s, i).Some? && j <= MatchAt(s, i).value
  {
    UnsignedDecimalShape(s, i, j);
  }

  lemma SignedFound(s: string, i: nat, j: nat)
    requires i < j <= |s| && IsSign(s[i]) && UnsignedDecimal(s[i + 1..j])
    ensures MatchAt(s, i).Some? && j <= MatchAt(s, i).value
  {
    UnsignedDecimalShape(s, i + 1, j);
  }

  lemma IntegerFound(s: string, i: nat, j: nat)
    requires i < j <= |s| && Integer(s[i..j])
    ensures MatchAt(s, i).Some? && j <= MatchAt(s, i).value
  {
    IntegerShape(s, i, j);
    var e := DigitEnd(s, i);
    if e + 1 < |s| && s[e] == '.' && IsDigit(s[e + 1]) {
      assert e + 1 < DigitEnd(s, e + 1);
    }
  }

  /** `\d*\.\d+` matches the text from `a` to the end of the digits after
      the '.'. */
  lemma UnsignedDecimalFound(s: string, a: nat)
    requires a <= |s|
    requires var e := DigitEnd(s, a); e + 1 < |s| && s[e] == '.' && IsDigit(s[e + 1])
    ensures UnsignedDecimal(s[a..DigitEnd(s, DigitEnd(s, a) + 1)])
  {
    var e := DigitEnd(s, a);
    var f := DigitEnd(s, e + 1);
    var t := s[a..f];
    assert t[e - a] == '.';
    assert t[|t| - 1] == s[f - 1];
    forall k | 0 <= k < |t| ensures IsDigit(t[k]) || t[k] == '.' {
      assert t[k] == s[a + k];
    }
    forall k, m | 0 <= k < m < |t| && t[k] == '.' ensures t[m] != '.' {
      assert t[k] == s[a + k] && t[m] == s[a + m];
    }
  }

  /** A sign followed by a decimal is a decimal. */
  lemma SignedDecimal(s: string, i: nat, f: nat)
    requires i < f <= |s| && IsSign(s[i]) && UnsignedDecimal(s[i + 1..f])
    ensures Decimal(s[i..f])
  {
    assert s[i..f][1..] == s[i + 1..f];
  }

  /** A non-empty digit run is a match of `\d+`. */
  lemma DigitsInteger(s: string, i: nat, e: nat)
    requires i < e <= |s|
    requires forall m :: i <= m < e ==> IsDigit(s[m])
    ensures Integer(s[i..e])
  {
    forall k | 0 <= k < e - i ensures IsDigit(s[i..e][k]) {
      assert s[i..e][k] == s[i + k];
    }
  }

  /** What `MatchAt` reports is a match of the pattern. */
  lemma MatchAtSound(s: string, i: nat)
    requires i < |s|
    ensures MatchAt(s, i).Some? ==> Pattern(s[i..MatchAt(s, i).value])
  {
    var start := if IsSign(s[i]) then i + 1 else i;
    var e := DigitEnd(s, start);
    if e + 1 < |s| && s[e] == '.' && IsDigit(s[e + 1]) {
      var f := DigitEnd(s, e + 1);
      assert MatchAt(s, i) == Some(f);
      UnsignedDecimalFound(s, start);
      if start == i + 1 {
        SignedDecimal(s, i, f);
      }
    } else if start == i && e > i {
      assert MatchAt(s, i) == Some(e);
      DigitsInteger(s, i, e);
    } else {
      assert MatchAt(s, i) == None;
    }
  }

  /** Where a match lies in the text. */
  datatype Span = Span(start: nat, end: nat)

  /** `re.search` from position `from`: the first position where the
      pattern matches, with the match found there. */
  function SearchFrom(s: string, from: nat): (r: Option<Span>)
    requires from <= |s|
    ensures r.Some? ==> from <= r.value.start < |s| && MatchAt(s, r.value.start) == Some(r.value.end)
    ensures r.Some? ==> forall i :: from <= i < r.value.start ==> MatchAt(s, i).None?
    ensures r.None? ==> forall i :: from <= i < |s| ==> MatchAt(s, i).None?
    decreases |s| - from
  {
    if from == |s| then None
    else if MatchAt(s, from).Some? then Some(Span(from, MatchAt(s, from).value))
    else SearchFrom(s, from + 1)
  }

  function Search(s: string): Option<Span> {
    SearchFrom(s, 0)
  }

  /** `re.search` returns the leftmost match of the pattern, and at that
      position the longest one. */
  lemma SearchLeftmostLongest(s: string)
    ensures Search(s).Some? ==> var m := Search(s).value;
      && m.start < m.end <= |s|
      && Pattern(s[m.start..m.end])
      && (forall a, b :: 0 <= a < m.start && a < b <= |s| ==> !Pattern(s[a..b]))
      && (forall b :: m.end < b <= |s| ==> !Pattern(s[m.start..b]))
    ensures Search(s).None? ==> forall a, b :: 0 <= a < b <= |s| ==> !Pattern(s[a..b])
  {
    forall a, b | 0 <= a < b <= |s| {
      MatchAtComplete(s, a, b);
    }
    if Search(s).Some? {
      MatchAtSound(s, Search(s).value.start);
    }
  }

  /** The search finds nothing exactly when the text has no digit. */
  lemma SearchNone(s: string)
    ensures Search(s).None? <==> forall k :: 0 <= k < |s| ==> !IsDigit(s[k])
  {
    if Search(s).None? {
      forall k | 0 <= k < |s| ensures !IsDigit(s[k]) {
        MatchAtComplete(s, k, k + 1);
        assert IsDigit(s[k]) ==> Integer(s[k..k + 1]);
      }
    }
  }

  /** Text that matches the pattern is a numeral `float()` accepts. */
  lemma PatternNumeral(t: string)
    requires Pattern(t)
    ensures Numeral(t)
  {
    if UnsignedDecimal(t) {
      UnsignedDecimalNumeral(t);
    } else if Decimal(t) {
      UnsignedDecimalNumeral(t[1..]);
    } else {
      DigitsNumeral(t);
    }
  }

  lemma UnsignedDecimalNumeral(u: string)
    requires UnsignedDecimal(u)
    ensures Unsigned(u) == u && UnsignedNumeral(u)
  {
    var p := |BeforeDot(u)|;
    assert u[0] == '.' || IsDigit(u[0]);
    var q :| 0 <= q < |u| && u[q] == '.';
    BeforeDotBefore(u, q);
    var v := u[..p];
    forall k | 0 <= k < |v| ensures IsDigit(v[k]) {
      assert v[k] == u[k] && u[k] != '.';
    }
    var w := u[p + 1..];
    forall k | 0 <= k < |w| ensures IsDigit(w[k]) {
      assert w[k] == u[p + 1 + k];
    }
  }

  /** What the search finds is a numeral. */
  lemma FoundNumeral(s: string)
    requires Search(s).Some?
    ensures var m := Search(s).value; m.start < m.end <= |s| && Numeral(s[m.start..m.end])
  {
    var m := Search(s).value;
    MatchAtSound(s, m.start);
    PatternNumeral(s[m.start..m.end]);
  }

  // ---- clean_coordinate ----

  /** `any(char in str(coord).upper() for char in ['S', 'W'])`. */
  predicate SouthOrWest(s: string) {
    'S' in Upper(s) || 'W' in Upper(s)
  }

  /** `clean_coordinate` on text: the first number in it, negated when the
      text names a southern or western direction, 0.0 when it holds none. */
  function CleanText(s: string): real {
    match Search(s)
    case None => 0.0
    case Some(m) =>
      FoundNumeral(s);
      var v := NumeralValue(s[m.start..m.end]);
      if SouthOrWest(s) then -v else v
  }

  /** `clean_coordinate`: a missing value and the empty string are 0.0, a
      number is its own value whatever its sign, other values are read as
      text (a timestamp through its printed form `show`). */
  function CleanCoordinate(c: Cell, show: Cell -> string): (v: real)
    ensures c.Missing? || c == Text("") ==> v == 0.0
    ensures c.IntCell? ==> v == c.i as real
    ensures c.FloatCell? ==> v == c.x
    ensures c.Text? && c.s != "" ==> v == CleanText(c.s)
  {
    match c
    case Missing => 0.0
    case Text(s) => if s == "" then 0.0 else CleanText(s)
    case IntCell(i) => i as real
    case FloatCell(x) => x
    case Date(_) => CleanText(show(c))
  }

  // ---- what clean_coordinate does with signs and directions ----

  /** Text made only of digits, '.' and signs names no direction. */
  lemma NoDirection(t: string)
    requires forall k :: 0 <= k < |t| ==> IsDigit(t[k]) || t[k] == '.' || IsSign(t[k])
    ensures !SouthOrWest(t)
  {
    var u := Upper(t);
    forall k | 0 <= k < |u| ensures u[k] != 'S' && u[k] != 'W' {
      assert u[k] == UpperChar(t[k]);
    }
  }

  /** A match of the pattern holds only digits, '.' and signs. */
  lemma PatternChars(t: string)
    requires Pattern(t)
    ensures forall k :: 0 <= k < |t| ==> IsDigit(t[k]) || t[k] == '.' || IsSign(t[k])
  {
    if !UnsignedDecimal(t) && !Integer(t) {
      forall k | 0 < k < |t| ensures IsDigit(t[k]) || t[k] == '.' {
        assert t[k] == t[1..][k - 1];
      }
    }
  }

  /** Text that is one match of the pattern is found whole. */
  lemma WholeMatch(t: string)
    requires Pattern(t)
    ensures Search(t) == Some(Span(0, |t|))
  {
    MatchAtComplete(t, 0, |t|);
    assert t[0..|t|] == t;
  }

  /** A whole-text numeral of the pattern's form reads as its value, sign
      included. */
  lemma CleanNumeral(t: string, show: Cell -> string)
    requires Pattern(t)
    ensures Numeral(t) && CleanCoordinate(Text(t), show) == NumeralValue(t)
  {
    PatternNumeral(t);
    WholeMatch(t);
    PatternChars(t);
    NoDirection(t);
    assert t[0..|t|] == t;
  }

  /** Text without a digit cleans to 0.0. */
  lemma CleanNoDigit(s: string, show: Cell -> string)
    requires forall k :: 0 <= k < |s| ==> !IsDigit(s[k])
    ensures CleanCoordinate(Text(s), show) == 0.0
  {
    SearchNone(s);
  }

  /** The digit run from `k` reaches the end of text that is all digits from `k` on. */
  lemma DigitEndAll(s: string, k: nat)
    requires k <= |s| && forall m :: k <= m < |s| ==> IsDigit(s[m])
    ensures DigitEnd(s, k) == |s|
  {
    DigitEndBeyond(s, k, |s|);
  }

  /** Only the decimal alternative carries a sign, so a minus sign before an
      integer is dropped: `"-" + d` cleans to the value of the digits `d`. */
  lemma SignedIntegerLosesSign(d: string, show: Cell -> string)
    requires Integer(d)
    ensures CleanCoordinate(Text("-" + d), show) == DigitsValue(d) as real
  {
    var s := "-" + d;
    forall m | 1 <= m < |s| ensures IsDigit(s[m]) {
      assert s[m] == d[m - 1];
    }
    DigitEndAll(s, 1);
    assert MatchAt(s, 0) == None;
    assert MatchAt(s, 1) == Some(|s|);
    assert Search(s) == Some(Span(1, |s|));
    assert s[1..|s|] == d;
    DigitsNumeral(d);
    forall k | 0 <= k < |s| ensures IsDigit(s[k]) || s[k] == '.' || IsSign(s[k]) {
    }
    NoDirection(s);
  }

  /** Appending text without digits keeps every match that starts in `s`. */
  lemma MatchAtAppend(s: string, t: string, i: nat)
    requires i < |s| && forall k :: 0 <= k < |t| ==> !IsDigit(t[k])
    ensures MatchAt(s + t, i) == MatchAt(s, i)
  {
    var x := s + t;
    assert x[i] == s[i];
    var start := if IsSign(s[i]) then i + 1 else i;
    DigitEndAppend(s, t, start);
    var e := DigitEnd(s, start);
    if e < |s| {
      assert x[e] == s[e];
    }
    if e + 1 < |s| {
      assert x[e + 1] == s[e + 1];
      DigitEndAppend(s, t, e + 1);
    } else if e + 1 < |x| {
      assert x[e + 1] == t[e + 1 - |s|];
    }
  }

  /** No match starts inside text without digits. */
  lemma {:induction false} NoDigitNoMatch(x: string, from: nat)
    requires from <= |x| && forall k :: from <= k < |x| ==> !IsDigit(x[k])
    ensures SearchFrom(x, from) == None
    decreases |x| - from
  {
    if from < |x| {
      NoDigitNoMatch(x, from + 1);
    }
  }

  /** Appending text without digits does not change the search. */
  lemma {:induction false} SearchAppend(s: string, t: string, from: nat)
    requires from <= |s| && forall k :: 0 <= k < |t| ==> !IsDigit(t[k])
    ensures SearchFrom(s + t, from) == SearchFrom(s, from)
    decreases |s| - from
  {
    var x := s + t;
    if from == |s| {
      NoDigitTail(s, t);
    } else {
      MatchAtAppend(s, t, from);
      SearchAppend(s, t, from + 1);
    }
  }

  /** Text followed by digit-free text has no match from the joint onwards. */
  lemma NoDigitTail(s: string, t: string)
    requires forall k :: 0 <= k < |t| ==> !IsDigit(t[k])
    ensures SearchFrom(s + t, |s|) == None
  {
    var x := s + t;
    forall k | |s| <= k < |x| ensures !IsDigit(x[k]) {
      assert x[k] == t[k - |s|];
    }
    NoDigitNoMatch(x, |s|);
  }

  lemma SliceOfAppend(s: string, t: string, a: nat, b: nat)
    requires a <= b <= |s|
    ensures (s + t)[a..b] == s[a..b]
  {
  }

  /** A direction named in the tail is named in the whole text. */
  lemma SouthOrWestAppend(s: string, t: string)
    requires SouthOrWest(t)
    ensures SouthOrWest(s + t)
  {
    var u := Upper(s + t);
    forall k | 0 <= k < |t| ensures u[|s| + k] == Upper(t)[k] {
      assert (s + t)[|s| + k] == t[k];
    }
    var c := if 'S' in Upper(t) then 'S' else 'W';
    var k :| 0 <= k < |t| && Upper(t)[k] == c;
    assert u[|s| + k] == c;
  }

  /** A direction letter after the number negates it: for text `s` naming no
      direction and a digit-free suffix `t` that does, `s + t` cleans to the
      negation of `s`. */
  lemma DirectionNegates(s: string, t: string, show: Cell -> string)
    requires !SouthOrWest(s) && SouthOrWest(t)
    requires forall k :: 0 <= k < |t| ==> !IsDigit(t[k])
    ensures CleanCoordinate(Text(s + t), show) == -CleanCoordinate(Text(s), show)
  {
    var x := s + t;
    SearchAppend(s, t, 0);
    SouthOrWestAppend(s, t);
    assert x != "" by {
      assert Upper(t) != [];
    }
    if Search(s).Some? {
      var m := Search(s).value;
      FoundNumeral(s);
      SliceOfAppend(s, t, m.start, m.end);
    } else {
      assert CleanText(x) == 0.0 && CleanText(s) == 0.0;
    }
  }

  // ---- worked examples ----

  lemma ExampleSignedDecimal(show: Cell -> string)
    ensures CleanCoordinate(Text("-12.5"), show) == -12.5
  {
    DecimalExample();
    CleanNumeral("-12.5", show);
    NumeralValueExample();
  }

  lemma DecimalExample()
    ensures Pattern("12.5") && Pattern("-12.5")
  {
    var u := "12.5";
    assert "-12.5"[1..] == u;
    assert forall k :: 0 <= k < |u| ==> IsDigit(u[k]) || u[k] == '.';
  }

  lemma ExampleSignedInteger(show: Cell -> string)
    ensures CleanCoordinate(Text("-12"), show) == 12.0
  {
    SignedIntegerLosesSign("12", show);
    assert "-" + "12" == "-12";
    assert DigitsValue("12") == 12 by {
      assert "12"[..1] == "1";
    }
  }

  /** Digits written out in decimal read as their value. */
  lemma CleanNatText(n: nat, show: Cell -> string)
    ensures CleanCoordinate(Text(NatText(n)), show) == n as real
  {
    var d := NatText(n);
    CleanNumeral(d, show);
    DigitsNumeral(d);
  }

  lemma ExampleTwoDots(show: Cell -> string)
    ensures CleanCoordinate(Text("1.2.3"), show) == 1.2
  {
    var s := "1.2.3";
    assert DigitEnd(s, 0) == 1 && DigitEnd(s, 2) == 3;
    assert Search(s) == Some(Span(0, 3));
    assert s[0..3] == "1.2";
    NoDirection(s);
    OnePointTwo();
  }

  lemma ExampleSouth(show: Cell -> string)
    ensures CleanCoordinate(Text("12.5 S"), show) == -12.5
  {
    assert "12.5" + " S" == "12.5 S";
    assert Upper(" S")[1] == 'S';
    NoDirection("12.5");
    DirectionNegates("12.5", " S", show);
    DecimalExample();
    CleanNumeral("12.5", show);
    TwelvePointFive();
  }

  lemma ExampleSouthSigned(show: Cell -> string)
    ensures CleanCoordinate(Text("-12.5 S"), show) == 12.5
  {
    assert "-12.5" + " S" == "-12.5 S";
    assert Upper(" S")[1] == 'S';
    NoDirection("-12.5");
    DirectionNegates("-12.5", " S", show);
    ExampleSignedDecimal(show);
  }

  /** "East" holds an 's', so an eastern longitude is negated too. */
  lemma ExampleEast(show: Cell -> string)
    ensures CleanCoordinate(Text("10 East"), show) == -10.0
  {
    assert "10" + " East" == "10 East";
    assert Upper(" East")[3] == 'S';
    NatTextExamples();
    NoDirection("10");
    DirectionNegates("10", " East", show);
    CleanNatText(10, show);
  }

  // ---- get_engine_data ----

  /** At most one `date`, `lat` and `lon` column: with two, `df[col]` is a
      frame, which the conversions refuse. */
  predicate EngineColumnsSingle(cols: seq<string>) {
    Occurrences(cols, "date") <= 1 && Occurrences(cols, "lat") <= 1 && Occurrences(cols, "lon") <= 1
  }

  /** `df[name] = df[name].apply(clean_coordinate)` when there is a column
      `name`. */
  function CleanColumn(f: Frame, name: string, show: Cell -> string): (r: Frame)
    requires Rectangular(f)
    ensures Rectangular(r) && r.columns == f.columns && |r.rows| == |f.rows|
  {
    if name in f.columns then MapColumn(f, IndexOf(f.columns, name), c => FloatCell(CleanCoordinate(c, show))) else f
  }

  /** A cleaned column holds the cleaned coordinates; the others are as they were. */
  lemma CleanColumnAt(f: Frame, name: string, show: Cell -> string, i: nat, j: nat)
    requires Rectangular(f) && Occurrences(f.columns, name) <= 1
    requires i < |f.rows| && j < |f.columns|
    ensures CleanColumn(f, name, show).rows[i][j] == if f.columns[j] == name then FloatCell(CleanCoordinate(f.rows[i][j], show)) else f.rows[i][j]
  {
    if name in f.columns {
      MapColumnAt(f, IndexOf(f.columns, name), c => FloatCell(CleanCoordinate(c, show)), i, j);
      if f.columns[j] == name {
        OnlyPosition(f.columns, name, j);
      }
    }
  }

  /** `get_engine_data` applied to the loaded table `df`: an empty table
      stays empty; otherwise the header rule again, dates parsed, and `lat`
      and `lon` cleaned into floats. */
  function EngineFrame(df: Frame, show: Cell -> string, parse: Cell -> Option<int>): (r: Frame)
    requires Rectangular(df)
    ensures Rectangular(r)
    ensures IsEmpty(df) ==> r == EmptyFrame
    ensures !IsEmpty(df) ==> r.columns == NormalizeHeaders(df.columns) && |r.rows| == |df.rows|
  {
    if IsEmpty(df) then EmptyFrame
    else CleanColumn(CleanColumn(ParseDates(Normalized(df), parse), "lat", show), "lon", show)
  }

  /** Each cell of the engine's table: a date parsed, a coordinate cleaned,
      anything else as loaded. */
  lemma EngineCell(df: Frame, show: Cell -> string, parse: Cell -> Option<int>, i: nat, j: nat)
    requires Rectangular(df) && !IsEmpty(df) && EngineColumnsSingle(NormalizeHeaders(df.columns))
    requires i < |df.rows| && j < |df.columns|
    ensures var name := NormalizeHeader(df.columns[j]);
      EngineFrame(df, show, parse).rows[i][j] ==
        if name == "date" then ToDate(df.rows[i][j], parse)
        else if name == "lat" || name == "lon" then FloatCell(CleanCoordinate(df.rows[i][j], show))
        else df.rows[i][j]
  {
    var f := Normalized(df);
    var d := ParseDates(f, parse);
    ParseDatesAt(f, parse, i, j);
    CleanColumnAt(d, "lat", show, i, j);
    CleanColumnAt(CleanColumn(d, "lat", show), "lon", show, i, j);
  }

  /** `get_engine_data`, step by step, on what `load_dataset` returns. */
  method GetEngineData(parquet: Option<Frame>, mapping: Option<Frame>, show: Cell -> string, parse: Cell -> Option<int>) returns (r: Frame)
    requires parquet.Some? ==> Rectangular(parquet.value) && TypedColumnsSingle(NormalizeHeaders(parquet.value.columns))
    requires mapping.Some? ==> Rectangular(mapping.value)
    ensures r == EngineFrame(LoadedFrame(parquet, mapping, show, parse), show, parse)
  {
    var df := LoadDataset(parquet, mapping, show, parse);
    if IsEmpty(df) {
      return EmptyFrame;
    }
    df := df.(columns := NormalizeHeaders(df.columns));
    if "date" in df.columns {
      df := MapColumn(df, IndexOf(df.columns, "date"), c => ToDate(c, parse));
    }
    if "lat" in df.columns {
      df := MapColumn(df, IndexOf(df.columns, "lat"), c => FloatCell(CleanCoordinate(c, show)));
    }
    if "lon" in df.columns {
      df := MapColumn(df, IndexOf(df.columns, "lon"), c => FloatCell(CleanCoordinate(c, show)));
    }
    r := df;
  }

  /** On a loaded table the engine's steps change only the coordinates: the
      headers are already normalised and the dates already parsed. Every
      `lat` and `lon` cell becomes the float `clean_coordinate` gives. */
  lemma EngineOfLoaded(parquet: Option<Frame>, mapping: Option<Frame>, show: Cell -> string, parse: Cell -> Option<int>, i: nat, j: nat)
    requires parquet.Some? && Rectangular(parquet.value)
    requires var cols := NormalizeHeaders(parquet.value.columns);
      TypedColumnsSingle(cols) && Occurrences(cols, "lat") <= 1 && Occurrences(cols, "lon") <= 1
    requires mapping.Some? ==> Rectangular(mapping.value)
    requires var l := LoadedFrame(parquet, mapping, show, parse); !IsEmpty(l) && i < |l.rows| && j < |l.columns|
    ensures var l := LoadedFrame(parquet, mapping, show, parse);
      var r := EngineFrame(l, show, parse);
      && r.columns == l.columns
      && r.rows[i][j] == if l.columns[j] == "lat" || l.columns[j] == "lon" then FloatCell(CleanCoordinate(l.rows[i][j], show)) else l.rows[i][j]
  {
    var l := LoadedFrame(parquet, mapping, show, parse);
    LoadedEngineSingle(parquet, mapping, show, parse);
    LoadedCell(parquet, mapping, show, parse, i, j);
    EngineOnNormalized(l, show, parse, i, j);
  }

  /** On a table already in header form whose dates are parsed, the engine
      changes only the coordinate cells. */
  lemma EngineOnNormalized(l: Frame, show: Cell -> string, parse: Cell -> Option<int>, i: nat, j: nat)
    requires Rectangular(l) && !IsEmpty(l) && NormalizeHeaders(l.columns) == l.columns && EngineColumnsSingle(l.columns)
    requires i < |l.rows| && j < |l.columns|
    requires l.columns[j] == "date" ==> l.rows[i][j].Date? || l.rows[i][j].Missing?
    ensures var r := EngineFrame(l, show, parse);
      && r.columns == l.columns
      && r.rows[i][j] == if l.columns[j] == "lat" || l.columns[j] == "lon" then FloatCell(CleanCoordinate(l.rows[i][j], show)) else l.rows[i][j]
  {
    assert NormalizeHeader(l.columns[j]) == l.columns[j];
    EngineCell(l, show, parse, i, j);
  }

  /** The loaded table has at most one `date`, `lat` and `lon` column. */
  lemma LoadedEngineSingle(parquet: Option<Frame>, mapping: Option<Frame>, show: Cell -> string, parse: Cell -> Option<int>)
    requires parquet.Some? && Rectangular(parquet.value)
    requires var cols := NormalizeHeaders(parquet.value.columns);
      TypedColumnsSingle(cols) && Occurrences(cols, "lat") <= 1 && Occurrences(cols, "lon") <= 1
    requires mapping.Some? ==> Rectangular(mapping.value)
    ensures var l := LoadedFrame(parquet, mapping, show, parse);
      NormalizeHeaders(l.columns) == l.columns && EngineColumnsSingle(l.columns)
  {
    var f := Normalized(parquet.value);
    var w := WithCoordinates(f, mapping, show);
    assert LoadedFrame(parquet, mapping, show, parse).columns == Typed(w, parse).columns == w.columns;
    LoadedColumnsNormalized(parquet, mapping, show, parse);
    WithCoordinatesSingle(f, mapping, show);
    LoadedCoordinateOnce(parquet, mapping, show, parse, "lat");
    LoadedCoordinateOnce(parquet, mapping, show, parse, "lon");
  }
}
