/** `df.groupby(key)[col].sum().reset_index()`: one group per distinct key,
    in ascending key order, holding the sum of the column over its rows. */
module Grouping {
  import opened Orders

  datatype Group<K> = Group(key: K, total: int)

  predicate KeysIncreasing<K>(gs: seq<Group<K>>, lt: (K, K) -> bool) {
    forall i, j :: 0 <= i < j < |gs| ==> lt(gs[i].key, gs[j].key)
  }

  function KeySet<K>(gs: seq<Group<K>>): set<K> {
    set g | g in gs :: g.key
  }

  /** Sum of the totals of the groups keyed `k` (at most one in a group-by result). */
  function GroupTotal<K(==)>(gs: seq<Group<K>>, k: K): int {
    if gs == [] then 0
    else (if gs[0].key == k then gs[0].total else 0) + GroupTotal(gs[1..], k)
  }

  /** The totals column. */
  function Totals<K>(gs: seq<Group<K>>): (ts: seq<int>)
    ensures |ts| == |gs|
  {
    seq(|gs|, i requires 0 <= i < |gs| => gs[i].total)
  }

  /** The key column. */
  function Keys<K>(gs: seq<Group<K>>): (ks: seq<K>)
    ensures |ks| == |gs|
  {
    seq(|gs|, i requires 0 <= i < |gs| => gs[i].key)
  }

  function SumTotals<K>(gs: seq<Group<K>>): int {
    if gs == [] then 0 else gs[0].total + SumTotals(gs[1..])
  }

  /** Sum of `val` over the rows whose key is `k`. */
  function KeySum<T, K(==)>(rows: seq<T>, key: T -> K, val: T -> int, k: K): int {
    if rows == [] then 0
    else
      var n := |rows| - 1;
      KeySum(rows[..n], key, val, k) + (if key(rows[n]) == k then val(rows[n]) else 0)
  }

  /** Sum of `val` over all rows: the column total. */
  function ValueSum<T>(rows: seq<T>, val: T -> int): int {
    if rows == [] then 0 else ValueSum(rows[..|rows| - 1], val) + val(rows[|rows| - 1])
  }

  function RowKeys<T(==), K>(rows: seq<T>, key: T -> K): set<K> {
    set r | r in rows :: key(r)
  }

  /** A key of a group-by comes from some row. */
  lemma RowKeyWitness<T, K>(rows: seq<T>, key: T -> K, k: K) returns (r: T)
    requires k in RowKeys(rows, key)
    ensures r in rows && key(r) == k
  {
    r :| r in rows && key(r) == k;
  }

  /** Adds `v` to the group keyed `k`, creating it in its sorted place if absent. */
  function AddTo<K(==,!new)>(gs: seq<Group<K>>, k: K, v: int, lt: (K, K) -> bool): (r: seq<Group<K>>)
    requires StrictTotalOrder(lt) && KeysIncreasing(gs, lt)
    ensures KeysIncreasing(r, lt) && r != []
    ensures KeySet(r) == KeySet(gs) + {k}
    ensures forall x :: GroupTotal(r, x) == GroupTotal(gs, x) + (if x == k then v else 0)
    ensures SumTotals(r) == SumTotals(gs) + v
  {
    if gs == [] then
      ConsFacts(Group(k, v), []);
      [Group(k, v)] + []
    else if gs[0].key == k then
      AddHere(gs, k, v, lt);
      [Group(k, gs[0].total + v)] + gs[1..]
    else if lt(k, gs[0].key) then
      AddFront(gs, k, v, lt);
      [Group(k, v)] + gs
    else
      var tail := AddTo(gs[1..], k, v, lt);
      AddBehind(gs, k, v, lt, tail);
      [gs[0]] + tail
  }

  /** Adding to the first group. */
  lemma AddHere<K(!new)>(gs: seq<Group<K>>, k: K, v: int, lt: (K, K) -> bool)
    requires StrictTotalOrder(lt) && KeysIncreasing(gs, lt) && gs != [] && gs[0].key == k
    ensures var r := [Group(k, gs[0].total + v)] + gs[1..];
      && KeysIncreasing(r, lt)
      && KeySet(r) == KeySet(gs) + {k}
      && (forall x :: GroupTotal(r, x) == GroupTotal(gs, x) + (if x == k then v else 0))
      && SumTotals(r) == SumTotals(gs) + v
  {
    ConsFacts(gs[0], gs[1..]);
    ConsFacts(Group(k, gs[0].total + v), gs[1..]);
    ConsIncreasing(Group(k, gs[0].total + v), gs[1..], lt);
  }

  /** A new group below every key goes first. */
  lemma AddFront<K(!new)>(gs: seq<Group<K>>, k: K, v: int, lt: (K, K) -> bool)
    requires StrictTotalOrder(lt) && KeysIncreasing(gs, lt) && gs != [] && lt(k, gs[0].key)
    ensures var r := [Group(k, v)] + gs;
      && KeysIncreasing(r, lt)
      && KeySet(r) == KeySet(gs) + {k}
      && (forall x :: GroupTotal(r, x) == GroupTotal(gs, x) + (if x == k then v else 0))
      && SumTotals(r) == SumTotals(gs) + v
  {
    ConsFacts(Group(k, v), gs);
    ConsIncreasing(Group(k, v), gs, lt);
  }

  /** A key above the first group's is added to the tail. */
  lemma AddBehind<K(!new)>(gs: seq<Group<K>>, k: K, v: int, lt: (K, K) -> bool, tail: seq<Group<K>>)
    requires StrictTotalOrder(lt) && KeysIncreasing(gs, lt) && gs != [] && gs[0].key != k && !lt(k, gs[0].key)
    requires KeysIncreasing(tail, lt) && KeySet(tail) == KeySet(gs[1..]) + {k}
    requires forall x :: GroupTotal(tail, x) == GroupTotal(gs[1..], x) + (if x == k then v else 0)
    requires SumTotals(tail) == SumTotals(gs[1..]) + v
    ensures var r := [gs[0]] + tail;
      && KeysIncreasing(r, lt)
      && KeySet(r) == KeySet(gs) + {k}
      && (forall x :: GroupTotal(r, x) == GroupTotal(gs, x) + (if x == k then v else 0))
      && SumTotals(r) == SumTotals(gs) + v
  {
    ConsFacts(gs[0], gs[1..]);
    ConsFacts(gs[0], tail);
    HeadBelow(gs, k, tail, lt);
    ConsIncreasing(gs[0], tail, lt);
  }

  /** How the key set, the per-key totals and the grand total of a group
      sequence follow its first group. */
  lemma ConsFacts<K>(g: Group<K>, gs: seq<Group<K>>)
    ensures ([g] + gs)[1..] == gs
    ensures KeySet([g] + gs) == {g.key} + KeySet(gs)
    ensures forall x :: GroupTotal([g] + gs, x) == (if g.key == x then g.total else 0) + GroupTotal(gs, x)
    ensures SumTotals([g] + gs) == g.total + SumTotals(gs)
  {
    assert ([g] + gs)[1..] == gs;
    assert forall h :: h in [g] + gs <==> h == g || h in gs;
  }

  /** Inserting a key above the head of `gs` into its tail keeps the head below every key. */
  lemma HeadBelow<K(!new)>(gs: seq<Group<K>>, k: K, tail: seq<Group<K>>, lt: (K, K) -> bool)
    requires StrictTotalOrder(lt) && KeysIncreasing(gs, lt) && gs != []
    requires gs[0].key != k && !lt(k, gs[0].key)
    requires KeySet(tail) == KeySet(gs[1..]) + {k}
    ensures forall j :: 0 <= j < |tail| ==> lt(gs[0].key, tail[j].key)
  {
    assert lt(gs[0].key, k);
    forall j | 0 <= j < |tail| ensures lt(gs[0].key, tail[j].key) {
      assert tail[j] in tail;
      assert tail[j].key in KeySet(gs[1..]) + {k};
      if tail[j].key != k {
        var h :| h in gs[1..] && h.key == tail[j].key;
        var i :| 0 <= i < |gs[1..]| && gs[1..][i] == h;
        assert gs[i + 1] == h;
      }
    }
  }

  lemma ConsIncreasing<K>(g: Group<K>, gs: seq<Group<K>>, lt: (K, K) -> bool)
    requires KeysIncreasing(gs, lt)
    requires forall j :: 0 <= j < |gs| ==> lt(g.key, gs[j].key)
    ensures KeysIncreasing([g] + gs, lt)
  {
    forall i, j | 0 <= i < j < |gs| + 1 ensures lt(([g] + gs)[i].key, ([g] + gs)[j].key) {
      if i > 0 {
        assert ([g] + gs)[i] == gs[i - 1];
      }
      assert ([g] + gs)[j] == gs[j - 1];
    }
  }

  /** A key no group has totals 0. */
  lemma {:induction false} GroupTotalAbsent<K>(gs: seq<Group<K>>, k: K)
    requires k !in KeySet(gs)
    ensures GroupTotal(gs, k) == 0
  {
    if gs != [] {
      assert gs[0] in gs;
      assert KeySet(gs[1..]) <= KeySet(gs) by {
        forall x | x in KeySet(gs[1..]) ensures x in KeySet(gs) {
          var g :| g in gs[1..] && g.key == x;
          assert g in gs;
        }
      }
      GroupTotalAbsent(gs[1..], k);
    }
  }

  /** In a group-by result the total of each group is its `GroupTotal`. */
  lemma {:induction false} TotalAt<K(!new)>(gs: seq<Group<K>>, lt: (K, K) -> bool, i: nat)
    requires StrictTotalOrder(lt) && KeysIncreasing(gs, lt) && i < |gs|
    ensures GroupTotal(gs, gs[i].key) == gs[i].total
  {
    if i == 0 {
      Absent(gs[1..], lt, gs[0].key);
    } else {
      TotalAt(gs[1..], lt, i - 1);
    }
  }

  lemma {:induction false} Absent<K(!new)>(gs: seq<Group<K>>, lt: (K, K) -> bool, k: K)
    requires StrictTotalOrder(lt) && KeysIncreasing(gs, lt)
    requires forall j :: 0 <= j < |gs| ==> lt(k, gs[j].key)
    ensures GroupTotal(gs, k) == 0
  {
    if gs != [] {
      Absent(gs[1..], lt, k);
    }
  }

  function GroupSum<T(==), K(==,!new)>(rows: seq<T>, key: T -> K, val: T -> int, lt: (K, K) -> bool): (r: seq<Group<K>>)
    requires StrictTotalOrder(lt)
    ensures KeysIncreasing(r, lt)
    ensures r == [] <==> rows == []
    ensures KeySet(r) == RowKeys(rows, key)
    ensures forall x :: GroupTotal(r, x) == KeySum(rows, key, val, x)
    ensures SumTotals(r) == ValueSum(rows, val)
  {
    if rows == [] then []
    else
      var n := |rows| - 1;
      assert rows == rows[..n] + [rows[n]];
      assert RowKeys(rows, key) == RowKeys(rows[..n], key) + {key(rows[n])};
      AddTo(GroupSum(rows[..n], key, val, lt), key(rows[n]), val(rows[n]), lt)
  }

  lemma {:induction false} SumTotalsAppend<K>(a: seq<Group<K>>, b: seq<Group<K>>)
    ensures SumTotals(a + b) == SumTotals(a) + SumTotals(b)
  {
    if a != [] {
      assert (a + b)[1..] == a[1..] + b;
      SumTotalsAppend(a[1..], b);
    } else {
      assert a + b == b;
    }
  }

  /** The running total grows by one group at a time. */
  lemma PrefixStep<K>(gs: seq<Group<K>>, k: nat)
    requires k < |gs|
    ensures SumTotals(gs[..k + 1]) == SumTotals(gs[..k]) + gs[k].total
  {
    assert gs[..k + 1] == gs[..k] + [gs[k]];
    SumTotalsAppend(gs[..k], [gs[k]]);
  }

  /** A column that is never negative has no negative key sum. */
  lemma {:induction false} KeySumNonNegative<T, K>(rows: seq<T>, key: T -> K, val: T -> int, k: K)
    requires forall r :: r in rows ==> val(r) >= 0
    ensures KeySum(rows, key, val, k) >= 0
  {
    if rows != [] {
      assert rows[|rows| - 1] in rows;
      assert forall r :: r in rows[..|rows| - 1] ==> r in rows;
      KeySumNonNegative(rows[..|rows| - 1], key, val, k);
    }
  }

  /** A column that is zero everywhere has zero key sums. */
  lemma {:induction false} KeySumZero<T, K>(rows: seq<T>, key: T -> K, val: T -> int, k: K)
    requires forall r :: r in rows ==> val(r) == 0
    ensures KeySum(rows, key, val, k) == 0
  {
    if rows != [] {
      assert rows[|rows| - 1] in rows;
      assert forall r :: r in rows[..|rows| - 1] ==> r in rows;
      KeySumZero(rows[..|rows| - 1], key, val, k);
    }
  }

  /** A key no row has sums to 0. */
  lemma {:induction false} KeySumAbsent<T, K>(rows: seq<T>, key: T -> K, val: T -> int, k: K)
    requires k !in RowKeys(rows, key)
    ensures KeySum(rows, key, val, k) == 0
  {
    if rows != [] {
      var n := |rows| - 1;
      assert rows[n] in rows;
      assert RowKeys(rows[..n], key) <= RowKeys(rows, key) by {
        forall x | x in RowKeys(rows[..n], key) ensures x in RowKeys(rows, key) {
          var r :| r in rows[..n] && key(r) == x;
          assert r in rows;
        }
      }
      KeySumAbsent(rows[..n], key, val, k);
    }
  }

  /** Summing 1 per row counts the rows. */
  lemma {:induction false} ValueSumCount<T>(rows: seq<T>, val: T -> int)
    requires forall r :: r in rows ==> val(r) == 1
    ensures ValueSum(rows, val) == |rows|
  {
    if rows != [] {
      assert rows[|rows| - 1] in rows;
      assert forall r :: r in rows[..|rows| - 1] ==> r in rows;
      ValueSumCount(rows[..|rows| - 1], val);
    }
  }

  /** Each group of a group-by holds the sum of the column over the rows of its key. */
  lemma GroupSumAt<T, K(!new)>(rows: seq<T>, key: T -> K, val: T -> int, lt: (K, K) -> bool, i: nat)
    requires StrictTotalOrder(lt) && i < |GroupSum(rows, key, val, lt)|
    ensures GroupSum(rows, key, val, lt)[i].total == KeySum(rows, key, val, GroupSum(rows, key, val, lt)[i].key)
  {
    TotalAt(GroupSum(rows, key, val, lt), lt, i);
  }

  lemma {:induction false} KeySumAppend<T, K>(a: seq<T>, b: seq<T>, key: T -> K, val: T -> int, k: K)
    ensures KeySum(a + b, key, val, k) == KeySum(a, key, val, k) + KeySum(b, key, val, k)
    decreases |b|
  {
    if b != [] {
      var n := |b| - 1;
      var c := (if key(b[n]) == k then val(b[n]) else 0);
      assert (a + b)[..|a + b| - 1] == a + b[..n];
      assert (a + b)[|a + b| - 1] == b[n];
      assert KeySum(a + b, key, val, k) == KeySum(a + b[..n], key, val, k) + c;
      assert KeySum(b, key, val, k) == KeySum(b[..n], key, val, k) + c;
      KeySumAppend(a, b[..n], key, val, k);
    } else {
      assert a + b == a;
    }
  }

  lemma {:induction false} KeySumPermutation<T, K>(rows: seq<T>, rows': seq<T>, key: T -> K, val: T -> int, k: K)
    requires multiset(rows) == multiset(rows')
    ensures KeySum(rows, key, val, k) == KeySum(rows', key, val, k)
    decreases |rows|
  {
    if rows != [] {
      var n := |rows| - 1;
      var x := rows[n];
      assert rows == rows[..n] + [x];
      assert x in multiset(rows');
      var j :| 0 <= j < |rows'| && rows'[j] == x;
      var rest := rows'[..j] + rows'[j + 1..];
      MultisetWithout(rows[..n], x, rows', j);
      KeySumPermutation(rows[..n], rest, key, val, k);
      KeySumAppend(rows[..n], [x], key, val, k);
      KeySumWithout(rows', j, key, val, k);
    }
  }

  /** Taking `x` out of both sides of equal multisets. */
  lemma MultisetWithout<T>(a: seq<T>, x: T, b: seq<T>, j: nat)
    requires j < |b| && b[j] == x && multiset(a + [x]) == multiset(b)
    ensures multiset(a) == multiset(b[..j] + b[j + 1..])
  {
    var rest := b[..j] + b[j + 1..];
    assert b == b[..j] + [x] + b[j + 1..];
    assert multiset(b) == multiset(b[..j]) + multiset{x} + multiset(b[j + 1..]);
    assert multiset(a + [x]) == multiset(a) + multiset{x};
    assert multiset(rest) == multiset(b[..j]) + multiset(b[j + 1..]);
    assert multiset(a) + multiset{x} == multiset(rest) + multiset{x};
    forall y ensures multiset(a)[y] == multiset(rest)[y] {
      assert (multiset(a) + multiset{x})[y] == (multiset(rest) + multiset{x})[y];
    }
  }

  /** The key sum of a sequence is that of the sequence without its `j`th
      element plus that element's. */
  lemma KeySumWithout<T, K>(s: seq<T>, j: nat, key: T -> K, val: T -> int, k: K)
    requires j < |s|
    ensures KeySum(s, key, val, k) == KeySum(s[..j] + s[j + 1..], key, val, k) + KeySum([s[j]], key, val, k)
  {
    assert s == (s[..j] + [s[j]]) + s[j + 1..];
    KeySumAppend(s[..j] + [s[j]], s[j + 1..], key, val, k);
    KeySumAppend(s[..j], [s[j]], key, val, k);
    KeySumAppend(s[..j], s[j + 1..], key, val, k);
  }

  /** Only the empty result has no keys. */
  lemma KeySetEmpty<K>(b: seq<Group<K>>)
    ensures KeySet(b) == {} ==> b == []
  {
    if b != [] {
      assert b[0] in b;
      assert b[0].key in KeySet(b);
    }
  }

  /** Two group-by results with the same keys and the same per-key totals are equal. */
  lemma {:induction false} Canonical<K(!new)>(a: seq<Group<K>>, b: seq<Group<K>>, lt: (K, K) -> bool)
    requires StrictTotalOrder(lt) && KeysIncreasing(a, lt) && KeysIncreasing(b, lt)
    requires KeySet(a) == KeySet(b)
    requires forall x :: GroupTotal(a, x) == GroupTotal(b, x)
    ensures a == b
    decreases |a|
  {
    if a == [] {
      assert KeySet(b) == {};
      KeySetEmpty(b);
    } else {
      SameFirstKey(a, b, lt);
      SameTails(a, b, lt);
      Canonical(a[1..], b[1..], lt);
      assert a == [a[0]] + a[1..] && b == [b[0]] + b[1..];
    }
  }

  /** Increasing results with the same key set start with the same key. */
  lemma SameFirstKey<K(!new)>(a: seq<Group<K>>, b: seq<Group<K>>, lt: (K, K) -> bool)
    requires StrictTotalOrder(lt) && KeysIncreasing(a, lt) && KeysIncreasing(b, lt)
    requires KeySet(a) == KeySet(b) && a != []
    ensures b != [] && a[0].key == b[0].key
  {
    assert a[0] in a;
    assert a[0].key in KeySet(b);
    assert b[0] in b;
    assert b[0].key in KeySet(a);
    assert forall i :: 0 < i < |a| ==> lt(a[0].key, a[i].key);
    assert forall i :: 0 < i < |b| ==> lt(b[0].key, b[i].key);
  }

  /** With the same first key, two such results agree on the first group
      and on the keys and totals of the rest. */
  lemma SameTails<K(!new)>(a: seq<Group<K>>, b: seq<Group<K>>, lt: (K, K) -> bool)
    requires StrictTotalOrder(lt) && KeysIncreasing(a, lt) && KeysIncreasing(b, lt)
    requires KeySet(a) == KeySet(b)
    requires forall x :: GroupTotal(a, x) == GroupTotal(b, x)
    requires a != [] && b != [] && a[0].key == b[0].key
    ensures a[0] == b[0] && KeysIncreasing(a[1..], lt) && KeysIncreasing(b[1..], lt)
    ensures KeySet(a[1..]) == KeySet(b[1..])
    ensures forall x :: GroupTotal(a[1..], x) == GroupTotal(b[1..], x)
  {
    var k := a[0].key;
    assert a == [a[0]] + a[1..] && b == [b[0]] + b[1..];
    TotalAt(a, lt, 0);
    TotalAt(b, lt, 0);
    Absent(a[1..], lt, k);
    Absent(b[1..], lt, k);
    assert forall g :: g in a[1..] ==> lt(k, g.key);
    assert forall g :: g in b[1..] ==> lt(k, g.key);
    assert KeySet(a[1..]) == KeySet(a) - {k};
    assert KeySet(b[1..]) == KeySet(b) - {k};
    forall x ensures GroupTotal(a[1..], x) == GroupTotal(b[1..], x) {
      assert GroupTotal(a, x) == GroupTotal(b, x);
    }
  }

  /** The group-by result does not depend on the order of the input rows. */
  lemma GroupSumPermutation<T, K(!new)>(rows: seq<T>, rows': seq<T>, key: T -> K, val: T -> int, lt: (K, K) -> bool)
    requires StrictTotalOrder(lt) && multiset(rows) == multiset(rows')
    ensures GroupSum(rows, key, val, lt) == GroupSum(rows', key, val, lt)
  {
    var a, b := GroupSum(rows, key, val, lt), GroupSum(rows', key, val, lt);
    assert RowKeys(rows, key) == RowKeys(rows', key) by {
      forall x ensures x in rows <==> x in rows' {
        assert x in rows <==> x in multiset(rows);
        assert x in rows' <==> x in multiset(rows');
      }
    }
    forall x ensures GroupTotal(a, x) == GroupTotal(b, x) {
      KeySumPermutation(rows, rows', key, val, x);
    }
    Canonical(a, b, lt);
  }
}
