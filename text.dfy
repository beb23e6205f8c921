/** The string operations the loaders apply to headers and merge keys:
    Python's `str.strip()`, `str.lower()`, `str.upper()`, `str.replace(' ',
    '_')` and `str.split('.')[0]`. */
module Text {

  /** `str.isspace()` for one character: the characters Python's `strip()`
      removes when given no argument. */
  predicate IsSpace(c: char) {
    var n := c as int;
    n == 32 || 9 <= n <= 13 || 28 <= n <= 31 || n == 0x85 || n == 0xA0 || n == 0x1680
    || 0x2000 <= n <= 0x200A || n == 0x2028 || n == 0x2029 || n == 0x202F || n == 0x205F || n == 0x3000
  }

  /** `str.lstrip()`. */
  function StripStart(s: string): (r: string)
    ensures |r| <= |s| && r == s[|s| - |r|..]
    ensures forall k :: 0 <= k < |s| - |r| ==> IsSpace(s[k])
    ensures r == [] || !IsSpace(r[0])
  {
    if s != [] && IsSpace(s[0]) then
      var t := s[1..];
      var r := StripStart(t);
      assert s[|s| - |r|..] == t[|t| - |r|..];
      assert forall k :: 0 < k < |s| ==> s[k] == t[k - 1];
      r
    else s
  }

  /** `str.rstrip()`. */
  function StripEnd(s: string): (r: string)
    ensures |r| <= |s| && r == s[..|r|]
    ensures forall k :: |r| <= k < |s| ==> IsSpace(s[k])
    ensures r == [] || !IsSpace(r[|r| - 1])
  {
    if s != [] && IsSpace(s[|s| - 1]) then
      var t := s[..|s| - 1];
      var r := StripEnd(t);
      assert t[..|r|] == s[..|r|];
      assert forall k :: 0 <= k < |t| ==> s[k] == t[k];
      r
    else s
  }

  /** `str.strip()`: the text between the leading and the trailing whitespace. */
  function Strip(s: string): (r: string)
    ensures r == [] || (!IsSpace(r[0]) && !IsSpace(r[|r| - 1]))
  {
    StripEnd(StripStart(s))
  }

  /** What `strip()` leaves is a piece of the text with only whitespace
      around it. */
  lemma StripSlice(s: string) returns (i: nat, j: nat)
    ensures i <= j <= |s| && Strip(s) == s[i..j]
    ensures forall k :: 0 <= k < i ==> IsSpace(s[k])
    ensures forall k :: j <= k < |s| ==> IsSpace(s[k])
  {
    var t := StripStart(s);
    var u := StripEnd(t);
    i := |s| - |t|;
    j := i + |u|;
    SliceEnd(s, t, u, i, j);
  }

  /** The end of the text lies past the end of what `rstrip()` keeps of its
      tail `t`. */
  lemma SliceEnd(s: string, t: string, u: string, i: nat, j: nat)
    requires i + |t| == |s| && t == s[i..] && j == i + |u| && |u| <= |t| && u == t[..|u|]
    requires forall k :: |u| <= k < |t| ==> IsSpace(t[k])
    ensures u == s[i..j]
    ensures forall k :: j <= k < |s| ==> IsSpace(s[k])
  {
    forall k | j <= k < |s| ensures IsSpace(s[k]) {
      assert s[k] == t[k - i];
    }
  }

  /** `strip()` introduces no character. */
  lemma StripAdds(s: string, c: char)
    requires c !in s
    ensures c !in Strip(s)
  {
    var i, j := StripSlice(s);
    assert forall x :: x in s[i..j] ==> x in s;
  }

  /** Text that neither starts nor ends with whitespace is left as it is. */
  lemma StripNothing(s: string)
    requires s == [] || (!IsSpace(s[0]) && !IsSpace(s[|s| - 1]))
    ensures Strip(s) == s
  {
  }

  lemma StripIdempotent(s: string)
    ensures Strip(Strip(s)) == Strip(s)
  {
    StripNothing(Strip(s));
  }

  /** `str.lower()` on one character. */
  function LowerChar(c: char): char {
    if 'A' <= c <= 'Z' then (c as int + 32) as char else c
  }

  /** `str.upper()` on one character. */
  function UpperChar(c: char): char {
    if 'a' <= c <= 'z' then (c as int - 32) as char else c
  }

  function Lower(s: string): (r: string)
    ensures |r| == |s|
  {
    seq(|s|, k requires 0 <= k < |s| => LowerChar(s[k]))
  }

  function Upper(s: string): (r: string)
    ensures |r| == |s|
  {
    seq(|s|, k requires 0 <= k < |s| => UpperChar(s[k]))
  }

  /** `str.replace(' ', '_')`. */
  function ReplaceSpaces(s: string): (r: string)
    ensures |r| == |s|
  {
    seq(|s|, k requires 0 <= k < |s| => if s[k] == ' ' then '_' else s[k])
  }

  /** Lower-casing keeps every character's whitespace class. */
  lemma LowerKeepsSpace(c: char)
    ensures IsSpace(LowerChar(c)) <==> IsSpace(c)
  {
  }

  /** The header rule of both loaders: `.str.strip().str.lower().str.replace(' ', '_')`. */
  function NormalizeHeader(h: string): (r: string)
    ensures ' ' !in r
    ensures forall k :: 0 <= k < |r| ==> !('A' <= r[k] <= 'Z')
    ensures |r| <= |Strip(h)|
  {
    ReplaceSpaces(Lower(Strip(h)))
  }

  /** A non-space character stays a non-space through lower-casing and the
      space replacement. */
  lemma HeaderCharNotSpace(c: char)
    requires !IsSpace(c)
    ensures !IsSpace(if LowerChar(c) == ' ' then '_' else LowerChar(c))
  {
    LowerKeepsSpace(c);
  }

  /** The header rule leaves nothing for a second application to change. */
  lemma NormalizeHeaderIdempotent(h: string)
    ensures NormalizeHeader(NormalizeHeader(h)) == NormalizeHeader(h)
  {
    var s := Strip(h);
    var r := NormalizeHeader(h);
    if s != [] {
      HeaderCharNotSpace(s[0]);
      HeaderCharNotSpace(s[|s| - 1]);
      assert r[0] == (if LowerChar(s[0]) == ' ' then '_' else LowerChar(s[0]));
      assert r[|r| - 1] == (if LowerChar(s[|s| - 1]) == ' ' then '_' else LowerChar(s[|s| - 1]));
    }
    StripNothing(r);
    LowerFixed(r);
    ReplaceFixed(r);
  }

  /** Text without an upper-case letter is left alone by lower-casing. */
  lemma LowerFixed(s: string)
    requires forall k :: 0 <= k < |s| ==> !('A' <= s[k] <= 'Z')
    ensures Lower(s) == s
  {
  }

  /** Text without a space is left alone by the replacement. */
  lemma ReplaceFixed(s: string)
    requires ' ' !in s
    ensures ReplaceSpaces(s) == s
  {
    forall k | 0 <= k < |s| ensures ReplaceSpaces(s)[k] == s[k] {
      assert s[k] in s;
    }
  }

  /** Text already in header form (no surrounding whitespace, no upper-case
      letter, no space) is left as it is by the header rule. */
  lemma NormalizeHeaderFixed(h: string)
    requires h == [] || (!IsSpace(h[0]) && !IsSpace(h[|h| - 1]))
    requires forall k :: 0 <= k < |h| ==> !('A' <= h[k] <= 'Z')
    requires ' ' !in h
    ensures NormalizeHeader(h) == h
  {
    StripNothing(h);
    LowerFixed(h);
    ReplaceFixed(h);
  }

  function NormalizeHeaders(cols: seq<string>): (r: seq<string>)
    ensures |r| == |cols|
    ensures forall k :: 0 <= k < |cols| ==> r[k] == NormalizeHeader(cols[k])
  {
    seq(|cols|, k requires 0 <= k < |cols| => NormalizeHeader(cols[k]))
  }

  /** A header list once normalised stays as it is. */
  lemma NormalizeHeadersIdempotent(cols: seq<string>)
    ensures NormalizeHeaders(NormalizeHeaders(cols)) == NormalizeHeaders(cols)
  {
    forall k | 0 <= k < |cols| ensures NormalizeHeader(NormalizeHeader(cols[k])) == NormalizeHeader(cols[k]) {
      NormalizeHeaderIdempotent(cols[k]);
    }
  }

  /** The mapping file's header rule: `.str.strip().str.lower()`, then the
      renaming of the spellings of latitude and longitude. */
  function MappingHeader(h: string): (r: string)
    ensures Lower(Strip(h)) in {"latitude", "lattitude"} ==> r == "lat"
    ensures Lower(Strip(h)) == "longitude" ==> r == "lon"
    ensures Lower(Strip(h)) !in {"latitude", "lattitude", "longitude"} ==> r == Lower(Strip(h))
  {
    var n := Lower(Strip(h));
    if n == "latitude" || n == "lattitude" then "lat"
    else if n == "longitude" then "lon"
    else n
  }

  function MappingHeaders(cols: seq<string>): (r: seq<string>)
    ensures |r| == |cols|
    ensures forall k :: 0 <= k < |cols| ==> r[k] == MappingHeader(cols[k])
  {
    seq(|cols|, k requires 0 <= k < |cols| => MappingHeader(cols[k]))
  }

  /** `str.split('.')[0]`: the text before the first '.', all of it when
      there is none. */
  function BeforeDot(s: string): (r: string)
    ensures |r| <= |s| && r == s[..|r|]
    ensures '.' !in r
    ensures |r| < |s| ==> s[|r|] == '.'
  {
    if s == [] || s[0] == '.' then [] else [s[0]] + BeforeDot(s[1..])
  }

  /** Text without a '.' is its own first part. */
  lemma {:induction false} BeforeDotNothing(s: string)
    requires '.' !in s
    ensures BeforeDot(s) == s
  {
    if s != [] {
      assert s[0] in s;
      assert forall c :: c in s[1..] ==> c in s;
      BeforeDotNothing(s[1..]);
    }
  }

  /** The first part ends no later than any '.'. */
  lemma {:induction false} BeforeDotBefore(s: string, q: nat)
    requires q < |s| && s[q] == '.'
    ensures |BeforeDot(s)| <= q
  {
    if s[0] != '.' {
      BeforeDotBefore(s[1..], q - 1);
    }
  }

  /** The merge-key rule of both tables: `.astype(str).str.split('.').str[0].str.strip()`. */
  function CanonicalPincode(s: string): (r: string)
    ensures '.' !in r
  {
    var b := BeforeDot(s);
    StripAdds(b, '.');
    Strip(b)
  }

  /** Canonicalising a canonical pincode changes nothing. */
  lemma CanonicalPincodeIdempotent(s: string)
    ensures CanonicalPincode(CanonicalPincode(s)) == CanonicalPincode(s)
  {
    var r := CanonicalPincode(s);
    BeforeDotNothing(r);
    StripIdempotent(BeforeDot(s));
  }
}
