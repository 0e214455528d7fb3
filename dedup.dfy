/** De-duplication of filings. Call Report extracts hold one row per filing,
    and an amended filing repeats the key of the one it replaces with a later
    submission date; the scripts keep the latest. */
module Dedup {
  import opened Tables
  import opened Sorting

  /** The order `sort_values` gives submission dates: chronological, with a
      missing (unparseable) date after every real one. */
  predicate SubmittedNoLater(a: Option<Date>, b: Option<Date>)
  {
    b.None? || (a.Some? && DateAtMost(a.value, b.value))
  }

  lemma SubmittedNoLaterTransitive(a: Option<Date>, b: Option<Date>, c: Option<Date>)
    requires SubmittedNoLater(a, b) && SubmittedNoLater(b, c)
    ensures SubmittedNoLater(a, c)
  {
  }

  /** Some kept row has the key of `r` and a submission no earlier than its. */
  ghost predicate Superseded<R, K>(r: R, kept: seq<R>, key: R -> K, submitted: R -> Option<Date>)
  {
    exists j :: 0 <= j < |kept| && key(kept[j]) == key(r) && SubmittedNoLater(submitted(r), submitted(kept[j]))
  }

  /** `kept` is a de-duplication of `rows` that keeps a latest filing: one
      row per key, each an input row, and every input row is matched by a
      kept row of its key submitted no earlier. */
  ghost predicate LatestOf<R, K>(kept: seq<R>, rows: seq<R>, key: R -> K, submitted: R -> Option<Date>)
  {
    && UniqueKeys(kept, key)
    && (forall j :: 0 <= j < |kept| ==> kept[j] in rows)
    && (forall i :: 0 <= i < |rows| ==> Superseded(rows[i], kept, key, submitted))
  }

  /** Reordering the kept rows keeps them a de-duplication. */
  lemma LatestOfPermutation<R, K>(a: seq<R>, b: seq<R>, rows: seq<R>, key: R -> K, submitted: R -> Option<Date>)
    requires LatestOf(a, rows, key, submitted) && multiset(a) == multiset(b)
    ensures LatestOf(b, rows, key, submitted)
  {
    UniqueKeysPermutation(a, b, key);
    forall j | 0 <= j < |b|
      ensures b[j] in rows
    {
      assert b[j] in multiset(a);
    }
    forall i | 0 <= i < |rows|
      ensures Superseded(rows[i], b, key, submitted)
    {
      var w :| 0 <= w < |a| && key(a[w]) == key(rows[i]) && SubmittedNoLater(submitted(rows[i]), submitted(a[w]));
      assert a[w] in multiset(b);
      var v :| 0 <= v < |b| && b[v] == a[w];
    }
  }

  /** `sort_values(keys + ['rssdsubmissiondate'])` followed by
      `drop_duplicates(subset=keys, keep='last')`: one row per key, and that
      row is a latest submission of the key. Which of several rows with equal
      submission dates survives is left open, as pandas leaves it; so is the
      order of the rows returned. */
  method KeepLatest<R(==), K(==)>(rows: seq<R>, key: R -> K, submitted: R -> Option<Date>)
    returns (kept: seq<R>)
    ensures forall i, j :: 0 <= i < j < |kept| ==> key(kept[i]) != key(kept[j])
    ensures forall j :: 0 <= j < |kept| ==> kept[j] in rows
    ensures forall i :: 0 <= i < |rows| ==> Superseded(rows[i], kept, key, submitted)
    ensures forall i :: 0 <= i < |rows| && submitted(rows[i]).None? ==>
              exists j :: 0 <= j < |kept| && key(kept[j]) == key(rows[i]) && submitted(kept[j]).None?
  {
    kept := [];
    for n := 0 to |rows|
      invariant forall i, j :: 0 <= i < j < |kept| ==> key(kept[i]) != key(kept[j])
      invariant forall j :: 0 <= j < |kept| ==> kept[j] in rows
      invariant forall i :: 0 <= i < n ==> Superseded(rows[i], kept, key, submitted)
    {
      var r := rows[n];
      var j := 0;
      while j < |kept| && key(kept[j]) != key(r)
        invariant 0 <= j <= |kept|
        invariant forall m :: 0 <= m < j ==> key(kept[m]) != key(r)
      {
        j := j + 1;
      }
      if j == |kept| {
        ghost var before := kept;
        kept := kept + [r];
        assert forall i :: 0 <= i < n ==> Superseded(rows[i], before, key, submitted);
        forall i | 0 <= i <= n
          ensures Superseded(rows[i], kept, key, submitted)
        {
          if i < n {
            var w :| 0 <= w < |before| && key(before[w]) == key(rows[i])
                     && SubmittedNoLater(submitted(rows[i]), submitted(before[w]));
            assert kept[w] == before[w];
          } else {
            assert kept[|before|] == r;
          }
        }
      } else if SubmittedNoLater(submitted(kept[j]), submitted(r)) {
        ghost var before := kept;
        kept := kept[j := r];
        forall i | 0 <= i <= n
          ensures Superseded(rows[i], kept, key, submitted)
        {
          if i < n {
            var w :| 0 <= w < |before| && key(before[w]) == key(rows[i])
                     && SubmittedNoLater(submitted(rows[i]), submitted(before[w]));
            if w == j {
              SubmittedNoLaterTransitive(submitted(rows[i]), submitted(before[j]), submitted(r));
            }
            assert key(kept[w]) == key(rows[i]) && SubmittedNoLater(submitted(rows[i]), submitted(kept[w]));
          } else {
            assert kept[j] == r;
          }
        }
      } else {
        assert SubmittedNoLater(submitted(r), submitted(kept[j]));
        assert Superseded(rows[n], kept, key, submitted);
      }
    }
    forall i | 0 <= i < |rows| && submitted(rows[i]).None?
      ensures exists j :: 0 <= j < |kept| && key(kept[j]) == key(rows[i]) && submitted(kept[j]).None?
    {
      assert Superseded(rows[i], kept, key, submitted);
    }
  }

  /** `drop_duplicates(subset)` with keep='first': the rows whose key did not
      occur on an earlier row, in table order. With the identity as key this
      is `drop_duplicates()` on whole rows. */
  function DropDuplicates<R, K(==)>(rows: seq<R>, key: R -> K): seq<R>
  {
    if rows == [] then []
    else
      var d := DropDuplicates(rows[..|rows| - 1], key);
      if exists j :: 0 <= j < |d| && key(d[j]) == key(rows[|rows| - 1]) then d else d + [rows[|rows| - 1]]
  }

  /** Some row of `r` has key `k`. */
  ghost predicate HasKeyOf<R, K>(r: seq<R>, key: R -> K, k: K)
  {
    exists j :: 0 <= j < |r| && key(r[j]) == k
  }

  /** What is left has pairwise distinct keys, every row left is an input
      row, and every key of the input is still there. */
  lemma {:induction false} DropDuplicatesSpec<R, K>(rows: seq<R>, key: R -> K)
    ensures UniqueKeys(DropDuplicates(rows, key), key)
    ensures forall j :: 0 <= j < |DropDuplicates(rows, key)| ==> DropDuplicates(rows, key)[j] in rows
    ensures forall i :: 0 <= i < |rows| ==> HasKeyOf(DropDuplicates(rows, key), key, key(rows[i]))
    ensures |DropDuplicates(rows, key)| <= |rows|
    decreases |rows|
  {
    if rows != [] {
      var init := rows[..|rows| - 1];
      var last := rows[|rows| - 1];
      assert rows == init + [last];
      DropDuplicatesSpec(init, key);
      DropStep(init, last, key, DropDuplicates(init, key), DropDuplicates(rows, key));
    }
  }

  /** One step of DropDuplicates: the ensures of the prefix carry over to the whole. */
  lemma DropStep<R, K>(init: seq<R>, last: R, key: R -> K, d: seq<R>, r: seq<R>)
    requires UniqueKeys(d, key)
    requires forall j :: 0 <= j < |d| ==> d[j] in init
    requires forall i :: 0 <= i < |init| ==> HasKeyOf(d, key, key(init[i]))
    requires |d| <= |init|
    requires r == if exists j :: 0 <= j < |d| && key(d[j]) == key(last) then d else d + [last]
    ensures UniqueKeys(r, key)
    ensures forall j :: 0 <= j < |r| ==> r[j] in init + [last]
    ensures forall i :: 0 <= i < |init + [last]| ==> HasKeyOf(r, key, key((init + [last])[i]))
    ensures |r| <= |init| + 1
  {
    var rows := init + [last];
    forall j | 0 <= j < |d| ensures d[j] in rows {
      var m :| 0 <= m < |init| && init[m] == d[j];
      assert rows[m] == d[j];
    }
    forall i | 0 <= i < |rows| ensures HasKeyOf(r, key, key(rows[i])) {
      if i < |init| {
        var j :| 0 <= j < |d| && key(d[j]) == key(init[i]);
        assert r[j] == d[j];
      } else if r == d {
      } else {
        assert r[|d|] == last;
      }
    }
  }

  /** Row `i` is the first row of its key. */
  ghost predicate FirstOfKey<R, K>(rows: seq<R>, key: R -> K, i: nat)
    requires i < |rows|
  {
    forall m :: 0 <= m < i ==> key(rows[m]) != key(rows[i])
  }

  /** `x` is the first row of its key in `rows`. */
  ghost predicate IsFirstRow<R, K>(x: R, rows: seq<R>, key: R -> K)
  {
    exists i :: 0 <= i < |rows| && rows[i] == x && FirstOfKey(rows, key, i)
  }

  /** keep='first': every row that is left is the first row of its key. */
  lemma {:induction false} DropDuplicatesKeepsFirst<R, K>(rows: seq<R>, key: R -> K)
    ensures forall j :: 0 <= j < |DropDuplicates(rows, key)| ==> IsFirstRow(DropDuplicates(rows, key)[j], rows, key)
    decreases |rows|
  {
    if rows != [] {
      var init := rows[..|rows| - 1];
      var last := rows[|rows| - 1];
      var d := DropDuplicates(init, key);
      var r := DropDuplicates(rows, key);
      DropDuplicatesKeepsFirst(init, key);
      DropDuplicatesSpec(init, key);
      forall j | 0 <= j < |r|
        ensures IsFirstRow(r[j], rows, key)
      {
        if j < |d| {
          assert r[j] == d[j];
          assert IsFirstRow(d[j], init, key);
          var i :| 0 <= i < |init| && init[i] == d[j] && FirstOfKey(init, key, i);
          assert rows[i] == init[i];
          assert FirstOfKey(rows, key, i) by {
            forall m | 0 <= m < i ensures key(rows[m]) != key(rows[i]) {
              assert rows[m] == init[m];
            }
          }
        } else {
          assert r[j] == last;
          assert FirstOfKey(rows, key, |rows| - 1) by {
            forall m | 0 <= m < |rows| - 1 ensures key(rows[m]) != key(last) {
              assert rows[m] == init[m];
              assert HasKeyOf(d, key, key(init[m]));
              var t :| 0 <= t < |d| && key(d[t]) == key(init[m]);
            }
          }
        }
      }
    }
  }
}
