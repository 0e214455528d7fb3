/** `sort_values` over several columns. A row is sorted by a key made of
    integers (a date contributes its year, month and day), compared
    lexicographically; the sort is a stable insertion sort. pandas' default
    sort is not stable, so no property below relies on the order of rows
    whose keys are equal. */
module Sorting {
  import opened Tables

  /** Lexicographic order on keys; a key that is a prefix of another comes first. */
  predicate LexLeq(a: seq<int>, b: seq<int>)
    decreases |a|
  {
    |a| == 0 || (|b| > 0 && (a[0] < b[0] || (a[0] == b[0] && LexLeq(a[1..], b[1..]))))
  }

  lemma {:induction false} LexTotal(a: seq<int>, b: seq<int>)
    ensures LexLeq(a, b) || LexLeq(b, a)
    decreases |a|
  {
    if |a| > 0 && |b| > 0 && a[0] == b[0] {
      LexTotal(a[1..], b[1..]);
    }
  }

  lemma {:induction false} LexTransitive(a: seq<int>, b: seq<int>, c: seq<int>)
    requires LexLeq(a, b) && LexLeq(b, c)
    ensures LexLeq(a, c)
    decreases |a|
  {
    if |a| > 0 && a[0] == b[0] && b[0] == c[0] {
      LexTransitive(a[1..], b[1..], c[1..]);
    }
  }

  lemma {:induction false} LexAntisymmetric(a: seq<int>, b: seq<int>)
    requires LexLeq(a, b) && LexLeq(b, a)
    ensures a == b
    decreases |a|
  {
    if |a| > 0 {
      LexAntisymmetric(a[1..], b[1..]);
      assert a == [a[0]] + a[1..] && b == [b[0]] + b[1..];
    }
  }

  /** Comparing two keys compares their first `p` components first. */
  lemma {:induction false} LexPrefix(a: seq<int>, b: seq<int>, p: nat)
    requires LexLeq(a, b) && p <= |a| && p <= |b|
    ensures LexLeq(a[..p], b[..p])
    decreases p
  {
    if p > 0 && a[0] == b[0] {
      LexPrefix(a[1..], b[1..], p - 1);
      assert a[..p][1..] == a[1..][..p - 1] && b[..p][1..] == b[1..][..p - 1];
    }
  }

  /** A key squeezed between two equal keys equals them. */
  lemma LexSandwich(a: seq<int>, b: seq<int>, c: seq<int>)
    requires LexLeq(a, b) && LexLeq(b, c) && |b| == |c|
    ensures a == c ==> b == c
  {
    if a == c {
      LexAntisymmetric(b, c);
    }
  }

  ghost predicate SortedBy<R>(s: seq<R>, key: R -> seq<int>)
  {
    forall i, j :: 0 <= i < j < |s| ==> LexLeq(key(s[i]), key(s[j]))
  }

  /** Puts `x` before the first row whose key is not below it. */
  function Insert<R(==)>(x: R, s: seq<R>, key: R -> seq<int>): (r: seq<R>)
    ensures multiset(r) == multiset(s) + multiset{x}
    ensures |r| == |s| + 1
    decreases |s|
  {
    if s == [] then [x]
    else if LexLeq(key(x), key(s[0])) then [x] + s
    else
      assert s == [s[0]] + s[1..];
      [s[0]] + Insert(x, s[1..], key)
  }

  lemma {:induction false} InsertSorted<R>(x: R, s: seq<R>, key: R -> seq<int>)
    requires SortedBy(s, key)
    ensures SortedBy(Insert(x, s, key), key)
    decreases |s|
  {
    var r := Insert(x, s, key);
    if s == [] {
    } else if LexLeq(key(x), key(s[0])) {
      forall j | 0 < j < |r|
        ensures LexLeq(key(r[0]), key(r[j]))
      {
        if j > 1 {
          LexTransitive(key(x), key(s[0]), key(s[j - 1]));
        }
      }
    } else {
      var t := Insert(x, s[1..], key);
      assert s == [s[0]] + s[1..];
      InsertSorted(x, s[1..], key);
      LexTotal(key(x), key(s[0]));
      forall j | 0 <= j < |t|
        ensures LexLeq(key(s[0]), key(t[j]))
      {
        assert t[j] in multiset(t);
        if t[j] != x {
          assert t[j] in multiset(s[1..]);
          var m :| 0 <= m < |s[1..]| && s[1..][m] == t[j];
          assert s[m + 1] == t[j];
        }
      }
    }
  }

  /** `sort_values(columns)`: the rows in ascending key order, as a permutation. */
  function SortBy<R(==)>(s: seq<R>, key: R -> seq<int>): (r: seq<R>)
    ensures multiset(r) == multiset(s)
    ensures |r| == |s|
    ensures SortedBy(r, key)
    decreases |s|
  {
    if s == [] then []
    else
      assert s == [s[0]] + s[1..];
      var rest := SortBy(s[1..], key);
      InsertSorted(s[0], rest, key);
      Insert(s[0], rest, key)
  }

  /** A value occurring at two positions occurs at least twice. */
  lemma CountTwo<R>(t: seq<R>, i: nat, j: nat)
    requires i < j < |t|
    ensures t[i] == t[j] ==> multiset(t)[t[i]] >= 2
  {
    assert t == t[..j] + [t[j]] + t[j + 1..];
    assert t[..j][i] == t[i];
  }

  /** In a table with unique keys every row occurs once. */
  lemma CountOne<R, K>(s: seq<R>, a: nat, key: R -> K)
    requires a < |s| && UniqueKeys(s, key)
    ensures multiset(s)[s[a]] == 1
  {
    assert s == s[..a] + [s[a]] + s[a + 1..];
    forall m | 0 <= m < a
      ensures s[..a][m] != s[a]
    {
      assert key(s[m]) != key(s[a]);
    }
    var tail := s[a + 1..];
    forall m | 0 <= m < |tail|
      ensures tail[m] != s[a]
    {
      assert tail[m] == s[a + 1 + m];
    }
    assert s[a] !in s[..a] && s[a] !in s[a + 1..];
  }

  /** Reordering rows keeps their keys unique. */
  lemma UniqueKeysPermutation<R, K>(s: seq<R>, t: seq<R>, key: R -> K)
    requires multiset(s) == multiset(t) && UniqueKeys(s, key)
    ensures UniqueKeys(t, key)
  {
    forall i, j | 0 <= i < j < |t|
      ensures key(t[i]) != key(t[j])
    {
      assert t[i] in multiset(t) && t[j] in multiset(t);
      var a :| 0 <= a < |s| && s[a] == t[i];
      var b :| 0 <= b < |s| && s[b] == t[j];
      CountTwo(t, i, j);
      CountOne(s, a, key);
    }
  }

  /** A filter keeps a sorted table sorted. */
  lemma {:induction false} FilterSorted<R>(rows: seq<R>, keep: R -> bool, order: R -> seq<int>)
    requires SortedBy(rows, order)
    ensures SortedBy(Filter(rows, keep), order)
    decreases |rows|
  {
    if rows != [] {
      var init := rows[..|rows| - 1];
      var last := rows[|rows| - 1];
      FilterSorted(init, keep, order);
      var f := Filter(init, keep);
      forall j | 0 <= j < |f|
        ensures LexLeq(order(f[j]), order(last))
      {
        var m :| 0 <= m < |init| && init[m] == f[j];
        assert rows[m] == f[j];
      }
    }
  }
}
