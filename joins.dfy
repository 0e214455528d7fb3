/** `DataFrame.merge(..., how='left')`. Every left row is kept, in order,
    once for each right row with the same key, or once with nothing from the
    right when no right row matches. */
module Joins {
  import opened Tables

  /** The test "this row's key is `k`". */
  function KeyIs<R, K(==)>(rk: R -> K, k: K): R -> bool
  {
    x => rk(x) == k
  }

  /** The right-hand rows whose key is `k`: every one of them, each once, in
      table order. */
  function Matches<R, K(==)>(right: seq<R>, rk: R -> K, k: K): (m: seq<R>)
    ensures |m| == |Positions(right, KeyIs(rk, k))|
    ensures forall j :: 0 <= j < |m| ==> m[j] == right[Positions(right, KeyIs(rk, k))[j]]
    ensures forall i :: 0 <= i < |m| ==> rk(m[i]) == k && m[i] in right
    ensures m == [] <==> forall j :: 0 <= j < |right| ==> rk(right[j]) != k
  {
    var m := Filter(right, KeyIs(rk, k));
    FilterEmpty(right, KeyIs(rk, k));
    assert forall j :: 0 <= j < |right| ==> KeyIs(rk, k)(right[j]) == (rk(right[j]) == k);
    assert forall i :: 0 <= i < |m| ==> KeyIs(rk, k)(m[i]) == (rk(m[i]) == k);
    m
  }

  /** The output rows produced by one left row: the left row paired with each
      of its matches in turn, or once with nothing when it has none. */
  function JoinRow<L, R, K(==)>(l: L, right: seq<R>, lk: L -> K, rk: R -> K): (out: seq<(L, Option<R>)>)
    ensures var m := Matches(right, rk, lk(l));
      && |out| == (if m == [] then 1 else |m|)
      && (forall j :: 0 <= j < |out| ==> out[j].0 == l)
      && (m == [] ==> out[0].1 == None)
      && (forall j :: 0 <= j < |m| ==> out[j].1 == Some(m[j]))
  {
    var m := Matches(right, rk, lk(l));
    if m == [] then [(l, None)]
    else seq(|m|, i requires 0 <= i < |m| => (l, Some(m[i])))
  }

  function LeftJoin<L, R, K(==)>(left: seq<L>, right: seq<R>, lk: L -> K, rk: R -> K): seq<(L, Option<R>)>
    decreases |left|
  {
    if left == [] then []
    else LeftJoin(left[..|left| - 1], right, lk, rk) + JoinRow(left[|left| - 1], right, lk, rk)
  }

  /** The right row with key `k`, when the right keys are unique. */
  function Lookup<R, K(==)>(right: seq<R>, rk: R -> K, k: K): (r: Option<R>)
    ensures r.None? <==> forall j :: 0 <= j < |right| ==> rk(right[j]) != k
    ensures r.Some? ==> r.value in right && rk(r.value) == k
  {
    var m := Matches(right, rk, k);
    if m == [] then None else Some(m[0])
  }

  lemma MatchesOfUniqueKeys<R, K>(right: seq<R>, rk: R -> K, k: K)
    requires UniqueKeys(right, rk)
    ensures |Matches(right, rk, k)| <= 1
  {
    TwoMatchesShareKey(right, rk, k);
  }

  /** Two matches sit at two different positions with the same key. */
  lemma TwoMatchesShareKey<R, K>(right: seq<R>, rk: R -> K, k: K)
    ensures var p := Positions(right, KeyIs(rk, k));
      |Matches(right, rk, k)| >= 2 ==> p[0] < p[1] < |right| && rk(right[p[0]]) == rk(right[p[1]])
  {
    var m := Matches(right, rk, k);
    var p := Positions(right, KeyIs(rk, k));
    assert forall a :: 0 <= a < |m| ==> m[a] == right[p[a]] && rk(m[a]) == k;
  }

  /** With unique keys, looking up a row's own key finds that row. */
  lemma LookupOwnKey<R, K>(rows: seq<R>, key: R -> K, j: nat)
    requires UniqueKeys(rows, key) && j < |rows|
    ensures Lookup(rows, key, key(rows[j])) == Some(rows[j])
  {
    var r := Lookup(rows, key, key(rows[j]));
    assert r.Some?;
    var a :| 0 <= a < |rows| && rows[a] == r.value;
    assert key(rows[a]) == key(rows[j]);
  }

  /** Two tables whose keys agree row by row, the second with unique keys,
      find a key at the same position. */
  lemma LookupPositional<R, S, K>(a: seq<R>, ka: R -> K, b: seq<S>, kb: S -> K, k: K)
    requires |a| == |b| && forall i :: 0 <= i < |a| ==> ka(a[i]) == kb(b[i])
    requires UniqueKeys(b, kb)
    ensures Lookup(a, ka, k).None? <==> Lookup(b, kb, k).None?
    ensures Lookup(b, kb, k).Some? ==>
              exists j :: 0 <= j < |a| && Lookup(a, ka, k) == Some(a[j]) && Lookup(b, kb, k) == Some(b[j])
  {
    UniqueKeysPositional(a, ka, b, kb);
    if Lookup(b, kb, k).Some? {
      var j :| 0 <= j < |b| && b[j] == Lookup(b, kb, k).value;
      LookupOwnKey(a, ka, j);
      LookupOwnKey(b, kb, j);
      assert Lookup(a, ka, k) == Some(a[j]) && Lookup(b, kb, k) == Some(b[j]);
    } else {
      assert forall i :: 0 <= i < |a| ==> ka(a[i]) != k;
    }
  }

  /** Against unique right keys a left row comes out once, with its lookup. */
  lemma JoinRowOfUniqueKeys<L, R, K>(l: L, right: seq<R>, lk: L -> K, rk: R -> K)
    requires UniqueKeys(right, rk)
    ensures JoinRow(l, right, lk, rk) == [(l, Lookup(right, rk, lk(l)))]
  {
    MatchesOfUniqueKeys(right, rk, lk(l));
  }

  /** A left row's output rows all carry it, and there is at least one. */
  lemma JoinRowCarriesLeft<L, R, K>(l: L, right: seq<R>, lk: L -> K, rk: R -> K)
    ensures |JoinRow(l, right, lk, rk)| >= 1
    ensures forall j :: 0 <= j < |JoinRow(l, right, lk, rk)| ==> JoinRow(l, right, lk, rk)[j].0 == l
  {
  }

  /** A left merge against a table with unique keys keeps the left table's
      row count and order, and pairs each left row with its match, if any. */
  lemma {:induction false} LeftJoinUnique<L, R, K>(left: seq<L>, right: seq<R>, lk: L -> K, rk: R -> K)
    requires UniqueKeys(right, rk)
    ensures |LeftJoin(left, right, lk, rk)| == |left|
    ensures forall i :: 0 <= i < |left| ==>
              LeftJoin(left, right, lk, rk)[i] == (left[i], Lookup(right, rk, lk(left[i])))
    decreases |left|
  {
    if left != [] {
      var init := left[..|left| - 1];
      var l := left[|left| - 1];
      LeftJoinUnique(init, right, lk, rk);
      JoinRowOfUniqueKeys(l, right, lk, rk);
      var before := LeftJoin(init, right, lk, rk);
      var row := (l, Lookup(right, rk, lk(l)));
      var out := LeftJoin(left, right, lk, rk);
      assert out == before + [row];
      forall i | 0 <= i < |left|
        ensures out[i] == (left[i], Lookup(right, rk, lk(left[i])))
      {
        if i < |init| {
          assert left[i] == init[i] && out[i] == before[i];
        } else {
          assert i == |init|;
          assert out[|init|] == row;
        }
      }
    }
  }

  /** Whatever the right table holds, every left row comes out at least once. */
  lemma {:induction false} LeftJoinKeepsEveryLeftRow<L, R, K>(left: seq<L>, right: seq<R>, lk: L -> K, rk: R -> K)
    ensures |LeftJoin(left, right, lk, rk)| >= |left|
    ensures forall i :: 0 <= i < |left| ==>
              exists j :: 0 <= j < |LeftJoin(left, right, lk, rk)| && LeftJoin(left, right, lk, rk)[j].0 == left[i]
    decreases |left|
  {
    if left != [] {
      var init := left[..|left| - 1];
      var l := left[|left| - 1];
      LeftJoinKeepsEveryLeftRow(init, right, lk, rk);
      var before := LeftJoin(init, right, lk, rk);
      var out := LeftJoin(left, right, lk, rk);
      LeftJoinExtends(left, right, lk, rk);
      forall i | 0 <= i < |left|
        ensures exists j :: 0 <= j < |out| && out[j].0 == left[i]
      {
        if i < |init| {
          assert left[i] == init[i];
          var j :| 0 <= j < |before| && before[j].0 == init[i];
          assert out[j] == before[j] && 0 <= j < |out| && out[j].0 == left[i];
        } else {
          assert i == |left| - 1 && left[i] == l;
          assert 0 <= |before| < |out| && out[|before|].0 == left[i];
        }
      }
    }
  }

  /** One more left row: the earlier output is kept as a prefix and the new
      row's first output follows it. */
  lemma LeftJoinExtends<L, R, K>(left: seq<L>, right: seq<R>, lk: L -> K, rk: R -> K)
    requires left != []
    ensures var before := LeftJoin(left[..|left| - 1], right, lk, rk);
      var out := LeftJoin(left, right, lk, rk);
      && |out| > |before|
      && (forall j :: 0 <= j < |before| ==> out[j] == before[j])
      && out[|before|].0 == left[|left| - 1]
  {
    JoinRowCarriesLeft(left[|left| - 1], right, lk, rk);
  }

  /** With unique right keys, left rows that share a key receive the same
      right-hand values: a per-bank table merged on the bank repeats
      unchanged over all of that bank's rows. */
  lemma LeftJoinRepeatsPerKey<L, R, K>(left: seq<L>, right: seq<R>, lk: L -> K, rk: R -> K, i: nat, j: nat)
    requires UniqueKeys(right, rk)
    requires i < |left| && j < |left| && lk(left[i]) == lk(left[j])
    ensures |LeftJoin(left, right, lk, rk)| == |left|
    ensures LeftJoin(left, right, lk, rk)[i].1 == LeftJoin(left, right, lk, rk)[j].1
  {
    LeftJoinUnique(left, right, lk, rk);
  }

  /** Every output row carries one of the left rows. */
  lemma {:induction false} LeftJoinRowsFromLeft<L, R, K>(left: seq<L>, right: seq<R>, lk: L -> K, rk: R -> K)
    ensures forall j :: 0 <= j < |LeftJoin(left, right, lk, rk)| ==> LeftJoin(left, right, lk, rk)[j].0 in left
    decreases |left|
  {
    if left != [] {
      var init := left[..|left| - 1];
      var l := left[|left| - 1];
      LeftJoinRowsFromLeft(init, right, lk, rk);
      var before := LeftJoin(init, right, lk, rk);
      var tail := JoinRow(l, right, lk, rk);
      var out := LeftJoin(left, right, lk, rk);
      assert out == before + tail;
      JoinRowCarriesLeft(l, right, lk, rk);
      forall j | 0 <= j < |out| ensures out[j].0 in left {
        if j < |before| {
          var m :| 0 <= m < |init| && init[m] == before[j].0;
          assert left[m] == init[m];
        } else {
          assert out[j] == tail[j - |before|];
        }
      }
    }
  }
}
