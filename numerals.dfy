/** Decimal numerals: `str(n)` for integers, and the numeral grammar that
    `float()` and `pd.to_numeric` accept here, with its value. */
module Numerals {
  import opened Text

  predicate IsDigit(c: char) {
    '0' <= c <= '9'
  }

  predicate IsSign(c: char) {
    c == '-' || c == '+'
  }

  predicate AllDigits(t: string) {
    forall k :: 0 <= k < |t| ==> IsDigit(t[k])
  }

  function DigitValue(c: char): (n: nat)
    requires IsDigit(c)
    ensures n < 10
  {
    c as int - '0' as int
  }

  function DigitChar(n: nat): (c: char)
    requires n < 10
    ensures IsDigit(c) && DigitValue(c) == n
  {
    ('0' as int + n) as char
  }

  /** The value of a run of decimal digits, most significant first. */
  function DigitsValue(t: string): nat
    requires AllDigits(t)
  {
    if t == [] then 0 else DigitsValue(t[..|t| - 1]) * 10 + DigitValue(t[|t| - 1])
  }

  function Pow10(n: nat): (p: nat)
    ensures p >= 1
  {
    if n == 0 then 1 else 10 * Pow10(n - 1)
  }

  /** A run of `n` digits stands for less than `10^n`. */
  lemma {:induction false} DigitsBelow(t: string)
    requires AllDigits(t)
    ensures DigitsValue(t) < Pow10(|t|)
  {
    if t != [] {
      DigitsBelow(t[..|t| - 1]);
    }
  }

  /** `str(n)` for a non-negative integer: its decimal digits, without
      leading zeros. */
  function NatText(n: nat): (t: string)
    ensures t != [] && AllDigits(t)
    ensures |t| > 1 ==> t[0] != '0'
    ensures DigitsValue(t) == n
  {
    if n < 10 then [DigitChar(n)]
    else
      var t := NatText(n / 10) + [DigitChar(n % 10)];
      assert t[..|t| - 1] == NatText(n / 10);
      t
  }

  /** `str(i)` for an integer. */
  function IntText(i: int): (t: string)
    ensures i >= 0 ==> t == NatText(i)
    ensures i < 0 ==> t == "-" + NatText(-i)
  {
    if i < 0 then "-" + NatText(-i) else NatText(i)
  }

  /** The numeral without its sign. */
  function Unsigned(t: string): (u: string)
    ensures t != [] && IsSign(t[0]) ==> u == t[1..]
    ensures (t == [] || !IsSign(t[0])) ==> u == t
  {
    if t != [] && IsSign(t[0]) then t[1..] else t
  }

  /** `d+`, `d+.`, `d+.d+` or `.d+` without a sign: digits on both sides of
      at most one '.', and at least one digit. */
  predicate UnsignedNumeral(u: string) {
    var p := |BeforeDot(u)|;
    && AllDigits(u[..p])
    && (p < |u| ==> AllDigits(u[p + 1..]))
    && |u| > (if p < |u| then 1 else 0)
  }

  /** The numerals read here: `[+-]?` followed by an unsigned numeral. No
      exponent, no surrounding whitespace, no `inf` or `nan`. */
  predicate Numeral(t: string) {
    UnsignedNumeral(Unsigned(t))
  }

  /** The value of an unsigned numeral: the whole part plus the fraction. */
  function UnsignedValue(u: string): (v: real)
    requires UnsignedNumeral(u)
    ensures v >= 0.0
  {
    var p := |BeforeDot(u)|;
    var whole := DigitsValue(u[..p]) as real;
    if p < |u| then whole + DigitsValue(u[p + 1..]) as real / Pow10(|u| - p - 1) as real
    else whole
  }

  /** `float(t)`. */
  function NumeralValue(t: string): (v: real)
    requires Numeral(t)
    ensures t != [] && t[0] == '-' ==> v == -UnsignedValue(t[1..])
    ensures (t == [] || t[0] != '-') ==> v == UnsignedValue(Unsigned(t))
  {
    var v := UnsignedValue(Unsigned(t));
    if t != [] && t[0] == '-' then -v else v
  }

  /** A numeral with a '.' is read as a float, one without as an integer. */
  predicate HasFraction(t: string) {
    '.' in t
  }

  /** `int(t)` of a numeral without a fraction. */
  function NumeralInt(t: string): (i: int)
    requires Numeral(t) && !HasFraction(t)
    ensures i as real == NumeralValue(t)
  {
    var u := Unsigned(t);
    assert '.' !in u by {
      assert forall c :: c in u ==> c in t;
    }
    BeforeDotNothing(u);
    var n: int := DigitsValue(u);
    if t != [] && t[0] == '-' then -n else n
  }

  /** A digit run is a numeral, and reads back as its digits' value. */
  lemma DigitsNumeral(t: string)
    requires t != [] && AllDigits(t)
    ensures Numeral(t) && !HasFraction(t) && NumeralInt(t) == DigitsValue(t)
  {
    assert t[0] in t;
    assert '.' !in t by {
      forall k | 0 <= k < |t| ensures t[k] != '.' {
        assert IsDigit(t[k]);
      }
    }
    BeforeDotNothing(t);
  }

  /** `str` followed by `to_numeric` gives back the integer. */
  lemma IntTextRoundTrip(i: int)
    ensures Numeral(IntText(i)) && !HasFraction(IntText(i))
    ensures NumeralInt(IntText(i)) == i
  {
    var d := NatText(if i < 0 then -i else i);
    DigitsNumeral(d);
    if i < 0 {
      var t := IntText(i);
      assert Unsigned(t) == d;
      assert '.' !in t by {
        assert forall c :: c in t ==> c == '-' || c in d;
      }
    }
  }

  lemma NumeralValueExample()
    ensures Numeral("-12.5") && NumeralValue("-12.5") == -12.5
  {
    var u := "12.5";
    assert Unsigned("-12.5") == u;
    assert BeforeDot(u) == "12" by {
      assert BeforeDot(u[2..]) == [];
    }
    assert u[..2] == "12" && u[3..] == "5";
    assert DigitsValue("12") == 12 by {
      assert "12"[..1] == "1";
    }
  }

  lemma TwelvePointFive()
    ensures Numeral("12.5") && NumeralValue("12.5") == 12.5
  {
    var u := "12.5";
    assert Unsigned(u) == u;
    assert BeforeDot(u) == "12" by {
      assert BeforeDot(u[2..]) == [];
    }
    assert u[..2] == "12" && u[3..] == "5";
    assert AllDigits("12") && AllDigits("5");
    assert DigitsValue("12") == 12 by {
      assert "12"[..1] == "1";
    }
    assert DigitsValue("5") == 5 && Pow10(1) == 10;
    assert UnsignedNumeral(u);
    assert UnsignedValue(u) == 12.0 + 5.0 / 10.0;
  }

  lemma OnePointTwo()
    ensures Numeral("1.2") && NumeralValue("1.2") == 1.2
  {
    assert BeforeDot("1.2") == "1" by {
      assert BeforeDot("1.2"[1..]) == [];
    }
    assert "1.2"[..1] == "1" && "1.2"[2..] == "2";
  }

  lemma NatTextExamples()
    ensures NatText(10) == "10" && NatText(12) == "12"
  {
  }
}
