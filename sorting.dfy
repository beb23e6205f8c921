/** The two table operations the engine borrows from pandas: sorting
    (`sort_values`) and boolean-mask filtering (`df[mask]`). */
module Sorting {

  /** An irreflexive, transitive "comes strictly before" relation. */
  ghost predicate StrictOrder<T(!new)>(before: (T, T) -> bool) {
    && (forall a :: !before(a, a))
    && (forall a, b, c :: before(a, b) && before(b, c) ==> before(a, c))
  }

  /** No element comes strictly before one placed earlier. */
  predicate SortedBy<T>(s: seq<T>, before: (T, T) -> bool) {
    forall i, j :: 0 <= i < j < |s| ==> !before(s[j], s[i])
  }

  function InsertBy<T(!new)>(x: T, s: seq<T>, before: (T, T) -> bool): (r: seq<T>)
    requires StrictOrder(before) && SortedBy(s, before)
    ensures SortedBy(r, before)
    ensures multiset(r) == multiset(s) + multiset{x}
  {
    if s == [] then [x]
    else if before(x, s[0]) then [x] + s
    else
      assert s == [s[0]] + s[1..];
      var tail := InsertBy(x, s[1..], before);
      assert forall k :: 0 <= k < |tail| ==> !before(tail[k], s[0]) by {
        forall k | 0 <= k < |tail| ensures !before(tail[k], s[0]) {
          assert tail[k] in multiset(tail);
          assert tail[k] == x || tail[k] in s[1..];
        }
      }
      [s[0]] + tail
  }

  /** Insertion sort, taking the rows from the last one back so that a row
      goes behind every row it ties with: the sort is stable. */
  function SortBy<T(!new)>(s: seq<T>, before: (T, T) -> bool): (r: seq<T>)
    requires StrictOrder(before)
    ensures SortedBy(r, before)
    ensures multiset(r) == multiset(s)
  {
    if s == [] then []
    else
      assert s == s[..|s| - 1] + [s[|s| - 1]];
      InsertBy(s[|s| - 1], SortBy(s[..|s| - 1], before), before)
  }

  /** The rows of `s` that satisfy `p`, in their order. */
  function Keep<T(!new)>(s: seq<T>, p: T -> bool): (r: seq<T>)
    ensures forall x :: multiset(r)[x] == if p(x) then multiset(s)[x] else 0
    ensures forall x :: x in r <==> x in s && p(x)
  {
    if s == [] then []
    else
      assert s == [s[0]] + s[1..];
      (if p(s[0]) then [s[0]] else []) + Keep(s[1..], p)
  }

  lemma Associative<T>(a: seq<T>, b: seq<T>, c: seq<T>)
    ensures a + (b + c) == (a + b) + c
  {
  }

  lemma EmptyEnds<T>(a: seq<T>)
    ensures [] + a == a && a + [] == a
  {
  }

  /** Filtering a row appended at the end. */
  lemma {:induction false} KeepAppend<T(!new)>(s: seq<T>, x: T, p: T -> bool)
    ensures Keep(s + [x], p) == Keep(s, p) + (if p(x) then [x] else [])
  {
    var tail := if p(x) then [x] else [];
    if s == [] {
      assert s + [x] == [x];
    } else {
      var head := if p(s[0]) then [s[0]] else [];
      assert Keep(s + [x], p) == head + Keep(s[1..] + [x], p) by {
        assert (s + [x])[0] == s[0];
        assert (s + [x])[1..] == s[1..] + [x];
      }
      KeepAppend(s[1..], x, p);
      Associative(head, Keep(s[1..], p), tail);
    }
  }

  /** `same` picks out a class of rows that tie with one another and compare
      alike with every other row (rows with equal sort keys). */
  ghost predicate TieClass<T(!new)>(before: (T, T) -> bool, same: T -> bool) {
    forall a, b, c :: same(a) && same(b) ==> (before(a, c) <==> before(b, c))
  }

  /** Inserting a row puts it behind every row of its tie class. */
  lemma {:induction false} InsertKeep<T(!new)>(x: T, s: seq<T>, before: (T, T) -> bool, same: T -> bool)
    requires StrictOrder(before) && SortedBy(s, before) && TieClass(before, same)
    ensures Keep(InsertBy(x, s, before), same) == Keep(s, same) + (if same(x) then [x] else [])
  {
    var last := if same(x) then [x] else [];
    if s == [] {
      assert InsertBy(x, s, before) == [x];
      assert [x][0] == x && [x][1..] == [];
      assert Keep([x], same) == last + [];
    } else if before(x, s[0]) {
      assert InsertBy(x, s, before) == [x] + s;
      assert ([x] + s)[0] == x && ([x] + s)[1..] == s;
      assert Keep([x] + s, same) == last + Keep(s, same);
      if same(x) {
        forall k | 0 <= k < |s| ensures !same(s[k]) {
          assert !before(s[k], s[0]);
        }
        KeepNone(s, same);
        EmptyEnds(last);
      } else {
        EmptyEnds(Keep(s, same));
      }
    } else {
      var tail := InsertBy(x, s[1..], before);
      var head := if same(s[0]) then [s[0]] else [];
      assert InsertBy(x, s, before) == [s[0]] + tail;
      assert ([s[0]] + tail)[0] == s[0] && ([s[0]] + tail)[1..] == tail;
      InsertKeep(x, s[1..], before, same);
      calc {
        Keep([s[0]] + tail, same);
        head + Keep(tail, same);
        head + (Keep(s[1..], same) + last);
        { Associative(head, Keep(s[1..], same), last); }
        (head + Keep(s[1..], same)) + last;
      }
    }
  }

  /** The sort is stable: the rows of one tie class come out in input order. */
  lemma {:induction false} SortStable<T(!new)>(s: seq<T>, before: (T, T) -> bool, same: T -> bool)
    requires StrictOrder(before) && TieClass(before, same)
    ensures Keep(SortBy(s, before), same) == Keep(s, same)
  {
    if s != [] {
      var init, x := s[..|s| - 1], s[|s| - 1];
      assert s == init + [x];
      SortStable(init, before, same);
      InsertKeep(x, SortBy(init, before), before, same);
      KeepAppend(init, x, same);
    }
  }

  /** Filtering by a condition no row meets leaves nothing. */
  lemma KeepNone<T(!new)>(s: seq<T>, p: T -> bool)
    requires forall i :: 0 <= i < |s| ==> !p(s[i])
    ensures Keep(s, p) == []
  {
    if s != [] {
      assert forall i :: 0 <= i < |s[1..]| ==> !p(s[1..][i]) by {
        forall i | 0 <= i < |s[1..]| ensures !p(s[1..][i]) {
          assert s[1..][i] == s[i + 1];
        }
      }
      KeepNone(s[1..], p);
    }
  }

  /** A permutation of the mask-filtered rows that is sorted: what
      `df[mask].sort_values(...)` promises. */
  lemma SelectionMembership<T(!new)>(s: seq<T>, p: T -> bool, before: (T, T) -> bool)
    requires StrictOrder(before)
    ensures forall x :: x in SortBy(Keep(s, p), before) <==> x in s && p(x)
  {
    var r := SortBy(Keep(s, p), before);
    forall x ensures x in r <==> x in s && p(x) {
      assert x in r <==> x in multiset(r);
      assert x in Keep(s, p) <==> x in multiset(Keep(s, p));
    }
  }
}
