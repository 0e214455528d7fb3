/** Deposit-weighted means by group, as the scripts compute them with
    `groupby(keys).agg(sum_w=('weight', 'sum'), sum_wy=('w_var', 'sum'))`
    followed by `(sum_wy / sum_w).where(sum_w > 0)`. An observation counts
    when both its weight and its value are present: the scripts either drop
    the other rows first or let `sum` skip their missing products. */
module Weighted {
  import opened Tables

  /** One branch-level observation: its group, weight and value. */
  datatype Obs<K> = Obs(group: K, w: Option<real>, y: Option<real>)

  predicate Counted<K>(o: Obs<K>)
  {
    o.w.Some? && o.y.Some?
  }

  /** `sum_w` of group `k`. */
  function SumW<K(==)>(obs: seq<Obs<K>>, k: K): real
    decreases |obs|
  {
    if obs == [] then 0.0
    else
      var o := obs[|obs| - 1];
      SumW(obs[..|obs| - 1], k) + (if o.group == k && Counted(o) then o.w.value else 0.0)
  }

  /** `sum_wy` of group `k`. */
  function SumWY<K(==)>(obs: seq<Obs<K>>, k: K): real
    decreases |obs|
  {
    if obs == [] then 0.0
    else
      var o := obs[|obs| - 1];
      SumWY(obs[..|obs| - 1], k) + (if o.group == k && Counted(o) then o.w.value * o.y.value else 0.0)
  }

  /** The weighted mean of group `k`: defined exactly when the weights sum
      to something positive, and then it is the value whose weighted total
      is sum_wy. */
  function WeightedMean<K(==)>(obs: seq<Obs<K>>, k: K): (r: Option<real>)
    ensures r.Some? <==> SumW(obs, k) > 0.0
    ensures r.Some? ==> r.value * SumW(obs, k) == SumWY(obs, k)
  {
    if SumW(obs, k) > 0.0 then Some(SumWY(obs, k) / SumW(obs, k)) else None
  }

  /** Every counted observation of group `k` has a nonnegative weight and a
      value in [lo, hi]. */
  ghost predicate Bracketed<K>(obs: seq<Obs<K>>, k: K, lo: real, hi: real)
  {
    forall i :: 0 <= i < |obs| && obs[i].group == k && Counted(obs[i]) ==>
      obs[i].w.value >= 0.0 && lo <= obs[i].y.value <= hi
  }

  /** A value whose multiple by a positive weight lies between lo and hi times the weight lies between lo and hi. */
  lemma MeanBetween(m: real, s: real, t: real, lo: real, hi: real)
    requires s > 0.0 && m * s == t && lo * s <= t <= hi * s
    ensures lo <= m <= hi
  {
    assert (m - lo) * s >= 0.0;
    assert (hi - m) * s >= 0.0;
  }

  /** Sum of `w * (y - c)` over the counted observations of group `k`: how
      far the weighted total lies above `c` times the weight. */
  function Deviation<K(==)>(obs: seq<Obs<K>>, k: K, c: real): real
    decreases |obs|
  {
    if obs == [] then 0.0
    else
      var o := obs[|obs| - 1];
      Deviation(obs[..|obs| - 1], k, c) + (if o.group == k && Counted(o) then o.w.value * (o.y.value - c) else 0.0)
  }

  lemma {:induction false} DeviationIsOffset<K>(obs: seq<Obs<K>>, k: K, c: real)
    ensures Deviation(obs, k, c) == SumWY(obs, k) - c * SumW(obs, k)
    decreases |obs|
  {
    if obs != [] {
      var init := obs[..|obs| - 1];
      var o := obs[|obs| - 1];
      DeviationIsOffset(init, k, c);
      if o.group == k && Counted(o) {
        Distribute(c, SumW(init, k), o.w.value, o.y.value);
      }
    }
  }

  lemma Distribute(c: real, w0: real, w: real, y: real)
    ensures w * (y - c) == w * y - c * (w0 + w) + c * w0
  {
  }

  /** With nonnegative weights and values at least `c`, the weighted total
      is at least `c` times the weight. */
  lemma {:induction false} DeviationAbove<K>(obs: seq<Obs<K>>, k: K, c: real)
    requires forall i :: 0 <= i < |obs| && obs[i].group == k && Counted(obs[i]) ==>
               obs[i].w.value >= 0.0 && obs[i].y.value >= c
    ensures Deviation(obs, k, c) >= 0.0
    decreases |obs|
  {
    if obs != [] {
      var init := obs[..|obs| - 1];
      var o := obs[|obs| - 1];
      assert forall i :: 0 <= i < |init| ==> init[i] == obs[i];
      DeviationAbove(init, k, c);
      if o.group == k && Counted(o) {
        ProductNonNegative(o.w.value, o.y.value - c);
      }
    }
  }

  /** With values at most `c`, the deviation from `c` is the opposite of a
      sum of nonnegative terms. */
  lemma {:induction false} DeviationBelow<K>(obs: seq<Obs<K>>, k: K, c: real)
    requires forall i :: 0 <= i < |obs| && obs[i].group == k && Counted(obs[i]) ==>
               obs[i].w.value >= 0.0 && obs[i].y.value <= c
    ensures Deviation(obs, k, c) <= 0.0
    decreases |obs|
  {
    if obs != [] {
      var init := obs[..|obs| - 1];
      var o := obs[|obs| - 1];
      assert forall i :: 0 <= i < |init| ==> init[i] == obs[i];
      DeviationBelow(init, k, c);
      if o.group == k && Counted(o) {
        ProductNonNegative(o.w.value, c - o.y.value);
        assert o.w.value * (o.y.value - c) == -(o.w.value * (c - o.y.value));
      }
    }
  }

  lemma ProductNonNegative(a: real, b: real)
    requires a >= 0.0 && b >= 0.0
    ensures a * b >= 0.0
  {
  }

  /** With nonnegative weights the weights sum to something nonnegative. */
  lemma {:induction false} SumWNonNegative<K>(obs: seq<Obs<K>>, k: K)
    requires forall i :: 0 <= i < |obs| && obs[i].group == k && Counted(obs[i]) ==> obs[i].w.value >= 0.0
    ensures SumW(obs, k) >= 0.0
    decreases |obs|
  {
    if obs != [] {
      var init := obs[..|obs| - 1];
      assert forall i :: 0 <= i < |init| ==> init[i] == obs[i];
      SumWNonNegative(init, k);
    }
  }

  lemma SumsBracketed<K>(obs: seq<Obs<K>>, k: K, lo: real, hi: real)
    requires Bracketed(obs, k, lo, hi)
    ensures SumW(obs, k) >= 0.0
    ensures lo * SumW(obs, k) <= SumWY(obs, k)
    ensures SumWY(obs, k) <= hi * SumW(obs, k)
  {
    SumWNonNegative(obs, k);
    DeviationAbove(obs, k, lo);
    DeviationBelow(obs, k, hi);
    DeviationIsOffset(obs, k, lo);
    DeviationIsOffset(obs, k, hi);
  }

  /** With nonnegative weights the weighted mean lies between the smallest
      and the largest value it averages. */
  lemma WeightedMeanWithin<K>(obs: seq<Obs<K>>, k: K, lo: real, hi: real)
    requires Bracketed(obs, k, lo, hi)
    ensures WeightedMean(obs, k).Some? ==> lo <= WeightedMean(obs, k).value <= hi
  {
    SumsBracketed(obs, k, lo, hi);
    var m := WeightedMean(obs, k);
    if m.Some? {
      MeanBetween(m.value, SumW(obs, k), SumWY(obs, k), lo, hi);
    }
  }

  /** The groups with at least one counted observation, each once, in order
      of first appearance (pandas lists them sorted; nothing below depends
      on their order). */
  function CountedGroups<K(==)>(obs: seq<Obs<K>>): (r: seq<K>)
    ensures forall i, j :: 0 <= i < j < |r| ==> r[i] != r[j]
    ensures forall i :: 0 <= i < |r| ==> exists j :: 0 <= j < |obs| && Counted(obs[j]) && obs[j].group == r[i]
    ensures forall j :: 0 <= j < |obs| && Counted(obs[j]) ==> obs[j].group in r
    decreases |obs|
  {
    if obs == [] then []
    else
      var init := obs[..|obs| - 1];
      var o := obs[|obs| - 1];
      var g := CountedGroups(init);
      assert forall i :: 0 <= i < |g| ==> exists j :: 0 <= j < |obs| && Counted(obs[j]) && obs[j].group == g[i] by {
        forall i | 0 <= i < |g|
          ensures exists j :: 0 <= j < |obs| && Counted(obs[j]) && obs[j].group == g[i]
        {
          var j :| 0 <= j < |init| && Counted(init[j]) && init[j].group == g[i];
          assert obs[j] == init[j];
        }
      }
      assert forall j :: 0 <= j < |init| ==> obs[j] == init[j];
      if Counted(o) && o.group !in g then g + [o.group] else g
  }

  /** A group without a counted observation has nothing to average. */
  lemma {:induction false} UncountedGroupHasNoMean<K>(obs: seq<Obs<K>>, k: K)
    requires k !in CountedGroups(obs)
    ensures SumW(obs, k) == 0.0 && WeightedMean(obs, k).None?
    decreases |obs|
  {
    if obs != [] {
      var init := obs[..|obs| - 1];
      assert forall j :: 0 <= j < |init| && Counted(init[j]) ==> init[j].group != k by {
        forall j | 0 <= j < |init| && Counted(init[j])
          ensures init[j].group != k
        {
          assert obs[j] == init[j];
        }
      }
      UncountedGroupHasNoMean(init, k);
    }
  }

  /** The aggregated table: one row per counted group with its weighted mean. */
  function WeightedMeans<K(==)>(obs: seq<Obs<K>>): (r: seq<(K, Option<real>)>)
    ensures |r| == |CountedGroups(obs)|
    ensures forall i :: 0 <= i < |r| ==> r[i].0 == CountedGroups(obs)[i] && r[i].1 == WeightedMean(obs, r[i].0)
  {
    var g := CountedGroups(obs);
    seq(|g|, i requires 0 <= i < |g| => (g[i], WeightedMean(obs, g[i])))
  }
}
