/** Shared vocabulary of the cleaning scripts: missing cells, report dates,
    pandas arithmetic (a missing operand makes a missing result), sums, and
    the positional per-group operations that `groupby(...)` offers
    (`shift`, `diff`, `ffill`, `cumsum`), all in table order. */
module Tables {

  datatype Option<+T> = None | Some(value: T)

  /** A report or submission date after `pd.to_datetime(...)`. */
  datatype Date = Date(year: int, month: int, day: int)

  /** Chronological order: year, then month, then day. */
  predicate DateBefore(a: Date, b: Date)
  {
    || a.year < b.year
    || (a.year == b.year && (a.month < b.month || (a.month == b.month && a.day < b.day)))
  }

  predicate DateAtMost(a: Date, b: Date)
  {
    a == b || DateBefore(a, b)
  }

  /** A date as a sort key: chronological order is the lexicographic order of this key. */
  function DateKey(d: Date): seq<int>
  {
    [d.year, d.month, d.day]
  }

  /** The numeric columns of one row, by column name; a name that is absent
      is a missing (NaN) cell. */
  type Cells = map<string, real>

  function Cell(cells: Cells, name: string): Option<real>
  {
    if name in cells then Some(cells[name]) else None
  }

  /** `df[name] = v` for one row: only that cell changes. */
  function SetCell(cells: Cells, name: string, v: Option<real>): (r: Cells)
    ensures Cell(r, name) == v
    ensures forall other :: other != name ==> Cell(r, other) == Cell(cells, other)
  {
    match v
    case Some(x) => cells[name := x]
    case None => cells - {name}
  }

  /** The line items of a left row after `left.merge(right, how='left')`,
      where `m` holds the items of its matched right row, if any: a column
      the right row carries takes the right row's value, and every other
      column keeps the left row's. */
  ghost predicate MergedCells(r: Cells, l: Cells, m: Option<Cells>)
  {
    forall n :: Cell(r, n) == if m.Some? && n in m.value then Cell(m.value, n) else Cell(l, n)
  }

  function Merged(l: Cells, m: Option<Cells>): (r: Cells)
    ensures MergedCells(r, l, m)
  {
    if m.Some? then l + m.value else l
  }

  /** The merge rule leaves nothing open: the items it describes are Merged's. */
  lemma MergedCellsDetermine(r: Cells, l: Cells, m: Option<Cells>)
    requires MergedCells(r, l, m)
    ensures r == Merged(l, m)
  {
    var e := Merged(l, m);
    forall n
      ensures n in r <==> n in e
      ensures n in r ==> r[n] == e[n]
    {
      assert Cell(r, n) == Cell(e, n);
    }
  }

  // ---------------------------------------------------------------------------
  // Arithmetic on cells: NaN propagates through + - * /
  // ---------------------------------------------------------------------------

  function Add(a: Option<real>, b: Option<real>): Option<real>
  {
    if a.Some? && b.Some? then Some(a.value + b.value) else None
  }

  function Sub(a: Option<real>, b: Option<real>): Option<real>
  {
    if a.Some? && b.Some? then Some(a.value - b.value) else None
  }

  function Mul(a: Option<real>, b: Option<real>): Option<real>
  {
    if a.Some? && b.Some? then Some(a.value * b.value) else None
  }

  /** `a / b`. A zero divisor gives a missing cell here, where pandas gives
      an infinity (NaN only for 0 / 0). The scripts do tell the two apart:
      `dropna` and `isna` count an infinity as present. */
  function Div(a: Option<real>, b: Option<real>): Option<real>
  {
    if a.Some? && b.Some? && b.value != 0.0 then Some(a.value / b.value) else None
  }

  /** `q` is `num / den`: present exactly when both are and the divisor is
      nonzero, and then `q * den == num`. */
  predicate IsRatio(q: Option<real>, num: Option<real>, den: Option<real>)
  {
    && (q.Some? <==> num.Some? && den.Some? && den.value != 0.0)
    && (q.Some? ==> q.value * den.value == num.value)
  }

  /** Division is the one ratio there is. */
  lemma DivIsRatio(q: Option<real>, num: Option<real>, den: Option<real>)
    ensures IsRatio(Div(num, den), num, den)
    ensures IsRatio(q, num, den) ==> q == Div(num, den)
  {
    if IsRatio(q, num, den) && q.Some? {
      assert q.value == q.value * den.value / den.value;
    }
  }

  function Scale(a: Option<real>, k: real): Option<real>
  {
    if a.Some? then Some(a.value * k) else None
  }

  predicate AllPresent(xs: seq<Option<real>>)
  {
    forall i :: 0 <= i < |xs| ==> xs[i].Some?
  }

  function Values(xs: seq<Option<real>>): (r: seq<real>)
    requires AllPresent(xs)
    ensures |r| == |xs|
    ensures forall i :: 0 <= i < |xs| ==> Some(r[i]) == xs[i]
  {
    seq(|xs|, i requires 0 <= i < |xs| => xs[i].value)
  }

  function Sum(xs: seq<real>): real
  {
    if xs == [] then 0.0 else Sum(xs[..|xs| - 1]) + xs[|xs| - 1]
  }

  /** `x1 + x2 + ... + xn` written out over columns: missing as soon as one
      term is missing, otherwise the sum of the terms. */
  function AddAll(xs: seq<Option<real>>): (r: Option<real>)
    ensures r.Some? <==> AllPresent(xs)
    ensures r.Some? ==> r.value == Sum(Values(xs))
  {
    if xs == [] then Some(0.0)
    else
      var init := xs[..|xs| - 1];
      assert AllPresent(xs) ==> AllPresent(init) && Values(init) == Values(xs)[..|xs| - 1];
      Add(AddAll(init), xs[|xs| - 1])
  }

  predicate IsPresent(x: Option<real>)
  {
    x.Some?
  }

  /** `Series.dropna()` on a numeric column: the present values, in order,
      each once: value `j` is the cell at the `j`-th present position. */
  function DropMissing(xs: seq<Option<real>>): (r: seq<real>)
    ensures |r| == |Positions(xs, IsPresent)| <= |xs|
    ensures forall j :: 0 <= j < |r| ==> Some(r[j]) == xs[Positions(xs, IsPresent)[j]]
    ensures r == [] <==> forall i :: 0 <= i < |xs| ==> xs[i].None?
    ensures forall j :: 0 <= j < |r| ==> Some(r[j]) in xs
  {
    var f := Filter(xs, IsPresent);
    assert f == [] ==> forall i :: 0 <= i < |xs| ==> xs[i].None? by {
      forall i | 0 <= i < |xs| && IsPresent(xs[i]) ensures xs[i] in f { }
    }
    assert f != [] ==> IsPresent(f[0]) && f[0] in xs;
    Values(f)
  }

  /** `Series.sum()`, which skips missing cells (and is 0 when all are missing). */
  function SumPresent(xs: seq<Option<real>>): real
  {
    if xs == [] then 0.0
    else SumPresent(xs[..|xs| - 1]) + (if xs[|xs| - 1].Some? then xs[|xs| - 1].value else 0.0)
  }

  lemma {:induction false} SumAppend(a: seq<real>, b: seq<real>)
    ensures Sum(a + b) == Sum(a) + Sum(b)
    decreases |b|
  {
    if b != [] {
      assert (a + b)[..|a + b| - 1] == a + b[..|b| - 1];
      SumAppend(a, b[..|b| - 1]);
    } else {
      assert a + b == a;
    }
  }

  lemma Sum4(v: seq<real>)
    requires |v| == 4
    ensures Sum(v) == v[0] + v[1] + v[2] + v[3]
  {
    assert v[..1][..0] == [];
    assert Sum(v[..1]) == v[0];
    assert v[..2][..1] == v[..1];
    assert Sum(v[..2]) == v[0] + v[1];
    assert v[..3][..2] == v[..2];
    assert Sum(v[..3]) == v[0] + v[1] + v[2];
    assert v[..4] == v;
  }

  lemma {:induction false} SumNonNegative(xs: seq<real>)
    requires forall i :: 0 <= i < |xs| ==> xs[i] >= 0.0
    ensures Sum(xs) >= 0.0
    decreases |xs|
  {
    if xs != [] {
      SumNonNegative(xs[..|xs| - 1]);
    }
  }

  function SumSq(xs: seq<real>): real
  {
    if xs == [] then 0.0 else SumSq(xs[..|xs| - 1]) + xs[|xs| - 1] * xs[|xs| - 1]
  }

  /** Dividing every term by `t` divides the sum by `t`. */
  lemma {:induction false} SumScaled(xs: seq<real>, t: real)
    requires t != 0.0
    ensures Sum(seq(|xs|, i requires 0 <= i < |xs| => xs[i] / t)) == Sum(xs) / t
    decreases |xs|
  {
    if xs != [] {
      var init := xs[..|xs| - 1];
      var ys := seq(|xs|, i requires 0 <= i < |xs| => xs[i] / t);
      assert ys[..|ys| - 1] == seq(|init|, i requires 0 <= i < |init| => init[i] / t);
      SumScaled(init, t);
      DivAdd(Sum(init), xs[|xs| - 1], t);
    }
  }

  lemma DivAdd(a: real, b: real, t: real)
    requires t != 0.0
    ensures a / t + b / t == (a + b) / t
  {
  }

  lemma SquareBelowStep(q0: real, s0: real, x: real)
    requires q0 <= s0 * s0 && s0 >= 0.0 && x >= 0.0
    ensures q0 + x * x <= (s0 + x) * (s0 + x)
  {
    assert (s0 + x) * (s0 + x) == s0 * s0 + 2.0 * s0 * x + x * x;
    assert s0 * x >= 0.0;
  }

  /** Nonnegative terms: the sum of squares is at most the square of the sum. */
  lemma {:induction false} SumSqBelowSquare(xs: seq<real>)
    requires forall i :: 0 <= i < |xs| ==> xs[i] >= 0.0
    ensures SumSq(xs) <= Sum(xs) * Sum(xs)
    decreases |xs|
  {
    if xs != [] {
      var init := xs[..|xs| - 1];
      SumSqBelowSquare(init);
      SumNonNegative(init);
      SquareBelowStep(SumSq(init), Sum(init), xs[|xs| - 1]);
    }
  }

  /** The sum of the squared distances of the terms from `x`. */
  function Spread(xs: seq<real>, x: real): real
  {
    if xs == [] then 0.0 else Spread(xs[..|xs| - 1], x) + (xs[|xs| - 1] - x) * (xs[|xs| - 1] - x)
  }

  lemma SpreadStep(d0: real, q0: real, s0: real, n0: real, y: real, x: real, d: real, q: real, s: real, n: real)
    requires d0 == q0 - 2.0 * x * s0 + n0 * x * x
    requires d == d0 + (y - x) * (y - x) && q == q0 + y * y && s == s0 + y && n == n0 + 1.0
    ensures d == q - 2.0 * x * s + n * x * x
  {
    assert (y - x) * (y - x) == y * y - 2.0 * x * y + x * x;
  }

  /** The spread expanded: sum of squares, minus twice x times the sum, plus n x². */
  lemma {:induction false} SpreadExpanded(xs: seq<real>, x: real)
    ensures Spread(xs, x) == SumSq(xs) - 2.0 * x * Sum(xs) + (|xs| as real) * x * x
    decreases |xs|
  {
    if xs != [] {
      SpreadExpanded(xs[..|xs| - 1], x);
      SpreadExpandedStep(xs, x);
    }
  }

  lemma SpreadExpandedStep(xs: seq<real>, x: real)
    requires xs != []
    requires var init := xs[..|xs| - 1];
      Spread(init, x) == SumSq(init) - 2.0 * x * Sum(init) + (|init| as real) * x * x
    ensures Spread(xs, x) == SumSq(xs) - 2.0 * x * Sum(xs) + (|xs| as real) * x * x
  {
    var init, y := xs[..|xs| - 1], xs[|xs| - 1];
    SumsSnoc(xs, x);
    SpreadStep(Spread(init, x), SumSq(init), Sum(init), |init| as real, y, x,
               Spread(xs, x), SumSq(xs), Sum(xs), |xs| as real);
  }

  /** One more term: each of the three sums gains that term's contribution. */
  lemma SumsSnoc(xs: seq<real>, x: real)
    requires xs != []
    ensures var init, y := xs[..|xs| - 1], xs[|xs| - 1];
      && Spread(xs, x) == Spread(init, x) + (y - x) * (y - x)
      && SumSq(xs) == SumSq(init) + y * y
      && Sum(xs) == Sum(init) + y
      && |xs| as real == |init| as real + 1.0
  {
  }

  lemma {:induction false} SpreadNonNegative(xs: seq<real>, x: real)
    ensures Spread(xs, x) >= 0.0
    decreases |xs|
  {
    if xs != [] {
      var y := xs[|xs| - 1];
      SpreadNonNegative(xs[..|xs| - 1], x);
      SquareNonNegative(y - x);
    }
  }

  lemma SquareNonNegative(a: real)
    ensures a * a >= 0.0
  {
    if a < 0.0 {
      assert a * a == (-a) * (-a);
    }
  }

  /** The scalar core of Cauchy-Schwarz: the spread around the mean m = s/n
      is q - s²/n, and it is nonnegative. */
  lemma SpreadAroundMean(q: real, s: real, n: real, m: real, d: real)
    requires n > 0.0 && m * n == s
    requires d == q - 2.0 * m * s + n * m * m && d >= 0.0
    ensures s * s <= n * q
  {
    assert n * d == n * q - s * s;
    assert n * d >= 0.0;
  }

  /** Cauchy-Schwarz for n terms: the square of the sum is at most n times
      the sum of squares. */
  lemma {:induction false} CauchySchwarz(xs: seq<real>)
    ensures Sum(xs) * Sum(xs) <= (|xs| as real) * SumSq(xs)
  {
    if xs != [] {
      var n, s, q := |xs| as real, Sum(xs), SumSq(xs);
      var m := s / n;
      SpreadExpanded(xs, m);
      SpreadNonNegative(xs, m);
      SpreadAroundMean(q, s, n, m, Spread(xs, m));
    } else {
      assert Sum(xs) == 0.0 && SumSq(xs) == 0.0;
    }
  }

  /** The distinct values of `ks`, in order of first appearance. */
  function Distinct<K(==)>(ks: seq<K>): (r: seq<K>)
    ensures forall i, j :: 0 <= i < j < |r| ==> r[i] != r[j]
    ensures forall i :: 0 <= i < |r| ==> r[i] in ks
    ensures forall i :: 0 <= i < |ks| ==> ks[i] in r
  {
    if ks == [] then []
    else
      var init := ks[..|ks| - 1];
      var d := Distinct(init);
      assert forall i :: 0 <= i < |init| ==> init[i] == ks[i];
      if ks[|ks| - 1] in d then d else d + [ks[|ks| - 1]]
  }

  /** A sequence without repeats has as many values as positions. */
  lemma {:induction false} NoRepeatsCount<K>(s: seq<K>)
    requires forall i, j :: 0 <= i < j < |s| ==> s[i] != s[j]
    ensures |set x | x in s| == |s|
    decreases |s|
  {
    if s != [] {
      var init := s[..|s| - 1];
      NoRepeatsCount(init);
      assert (set x | x in s) == (set x | x in init) + {s[|s| - 1]};
      assert s[|s| - 1] !in init;
    }
  }

  /** `nunique()`: the distinct values number as many as the set of values. */
  lemma DistinctCount<K>(ks: seq<K>)
    ensures |Distinct(ks)| == |set k | k in ks|
  {
    NoRepeatsCount(Distinct(ks));
    assert (set x | x in Distinct(ks)) == (set k | k in ks);
  }

  /** No two rows share a key. */
  ghost predicate UniqueKeys<R, K>(rows: seq<R>, key: R -> K)
  {
    forall i, j :: 0 <= i < j < |rows| ==> key(rows[i]) != key(rows[j])
  }

  /** Keys that agree position by position with unique keys are unique. */
  lemma UniqueKeysPositional<R, S, K>(a: seq<R>, ka: R -> K, b: seq<S>, kb: S -> K)
    requires |a| == |b| && forall i :: 0 <= i < |a| ==> ka(a[i]) == kb(b[i])
    requires UniqueKeys(b, kb)
    ensures UniqueKeys(a, ka)
  {
  }

  /** The positions of the rows that pass `keep`: every such position, each
      once, in ascending order. */
  function Positions<R>(rows: seq<R>, keep: R -> bool): (p: seq<nat>)
    ensures forall j :: 0 <= j < |p| ==> p[j] < |rows| && keep(rows[p[j]])
    ensures forall a, b :: 0 <= a < b < |p| ==> p[a] < p[b]
    ensures forall i :: 0 <= i < |rows| && keep(rows[i]) ==> i in p
  {
    if rows == [] then []
    else
      var init := rows[..|rows| - 1];
      var p0 := Positions(init, keep);
      assert forall j :: 0 <= j < |p0| ==> p0[j] < |init| && rows[p0[j]] == init[p0[j]];
      assert forall i :: 0 <= i < |init| ==> rows[i] == init[i];
      p0 + (if keep(rows[|rows| - 1]) then [|rows| - 1] else [])
  }

  /** `df[mask]`: the rows that pass, in table order, each passing row once:
      row `j` of the result is the row at the `j`-th passing position. */
  function Filter<R>(rows: seq<R>, keep: R -> bool): (r: seq<R>)
    ensures |r| == |Positions(rows, keep)| <= |rows|
    ensures forall j :: 0 <= j < |r| ==> r[j] == rows[Positions(rows, keep)[j]]
    ensures forall j :: 0 <= j < |r| ==> keep(r[j]) && r[j] in rows
    ensures forall i :: 0 <= i < |rows| && keep(rows[i]) ==> rows[i] in r
  {
    if rows == [] then []
    else
      var init := rows[..|rows| - 1];
      var last := rows[|rows| - 1];
      assert rows == init + [last];
      var f := Filter(init, keep);
      var p0 := Positions(init, keep);
      assert forall j :: 0 <= j < |f| ==> f[j] == rows[p0[j]];
      PositionsBound(rows, keep);
      Filter(init, keep) + (if keep(last) then [last] else [])
  }

  /** A filter comes out empty exactly when no row passes. */
  lemma FilterEmpty<R>(rows: seq<R>, keep: R -> bool)
    ensures Filter(rows, keep) == [] <==> forall i :: 0 <= i < |rows| ==> !keep(rows[i])
  {
    var f := Filter(rows, keep);
    if f != [] {
      assert keep(f[0]) && f[0] in rows;
    } else {
      forall i | 0 <= i < |rows| && keep(rows[i]) ensures rows[i] in f { }
    }
  }

  /** No more passing positions than rows. */
  lemma {:induction false} PositionsBound<R>(rows: seq<R>, keep: R -> bool)
    ensures |Positions(rows, keep)| <= |rows|
    decreases |rows|
  {
    if rows != [] {
      PositionsBound(rows[..|rows| - 1], keep);
    }
  }

  /** A filter keeps unique keys unique. */
  lemma {:induction false} FilterUnique<R, K>(rows: seq<R>, keep: R -> bool, key: R -> K)
    requires UniqueKeys(rows, key)
    ensures UniqueKeys(Filter(rows, keep), key)
    decreases |rows|
  {
    if rows != [] {
      var init := rows[..|rows| - 1];
      var last := rows[|rows| - 1];
      FilterUnique(init, keep, key);
      var f := Filter(init, keep);
      forall j | 0 <= j < |f|
        ensures key(f[j]) != key(last)
      {
        var m :| 0 <= m < |init| && init[m] == f[j];
        assert rows[m] == f[j];
      }
    }
  }

  /** `x.clip(lower=lo, upper=hi)` for a present value: the lower bound is
      applied first, then the upper. */
  function Clip(x: real, lo: real, hi: real): real
  {
    var y := if x < lo then lo else x;
    if y > hi then hi else y
  }

  /** With ordered bounds a clipped value lies between them, a value already
      between them is unchanged, and clipping twice is clipping once. */
  lemma ClipProperties(x: real, lo: real, hi: real)
    requires lo <= hi
    ensures lo <= Clip(x, lo, hi) <= hi
    ensures lo <= x <= hi ==> Clip(x, lo, hi) == x
    ensures x < lo ==> Clip(x, lo, hi) == lo
    ensures x > hi ==> Clip(x, lo, hi) == hi
    ensures Clip(Clip(x, lo, hi), lo, hi) == Clip(x, lo, hi)
  {
  }

  /** `y` is `x` clipped into [lo, hi]: missing stays missing, a value below
      is raised to lo, above is lowered to hi, inside is kept. */
  predicate IsClipped(y: Option<real>, x: Option<real>, lo: real, hi: real)
  {
    && (y.Some? <==> x.Some?)
    && (x.Some? && lo <= hi ==>
          && lo <= y.value <= hi
          && (lo <= x.value <= hi ==> y.value == x.value)
          && (x.value < lo ==> y.value == lo)
          && (x.value > hi ==> y.value == hi))
  }

  /** `s.clip(lower=lo, upper=hi)` on one cell: a missing cell stays missing. */
  function ClipCell(x: Option<real>, lo: real, hi: real): (r: Option<real>)
    ensures IsClipped(r, x, lo, hi)
    ensures lo <= hi && r.Some? ==> Clip(r.value, lo, hi) == r.value
  {
    if x.Some? then
      if lo <= hi then ClipProperties(x.value, lo, hi); Some(Clip(x.value, lo, hi))
      else Some(Clip(x.value, lo, hi))
    else None
  }

  // ---------------------------------------------------------------------------
  // Positional operations within groups, in table order
  // ---------------------------------------------------------------------------

  /** The last position before `n` whose key is `k`. */
  function LastIndexOf<K(==)>(keys: seq<K>, k: K, n: nat): (r: Option<nat>)
    requires n <= |keys|
    ensures r.Some? ==> r.value < n && keys[r.value] == k
    ensures r.Some? ==> forall j :: r.value < j < n ==> keys[j] != k
    ensures r.None? ==> forall j :: 0 <= j < n ==> keys[j] != k
  {
    if n == 0 then None
    else if keys[n - 1] == k then Some(n - 1)
    else LastIndexOf(keys, k, n - 1)
  }

  /** `groupby(keys)[xs].shift(1)` at row `i`: the value of the previous row
      of the same group in table order, missing for a group's first row. */
  function Lag<K(==), V>(keys: seq<K>, xs: seq<Option<V>>, i: nat): Option<V>
    requires |keys| == |xs| && i < |xs|
  {
    match LastIndexOf(keys, keys[i], i)
    case None => None
    case Some(j) => xs[j]
  }

  /** `groupby(keys)[xs].diff()` at row `i`. */
  function GroupDiff<K(==)>(keys: seq<K>, xs: seq<Option<real>>, i: nat): Option<real>
    requires |keys| == |xs| && i < |xs|
  {
    Sub(xs[i], Lag(keys, xs, i))
  }

  /** The last non-missing value of group `k` among the first `n` rows. */
  function LastPresent<K(==), V>(keys: seq<K>, xs: seq<Option<V>>, k: K, n: nat): (r: Option<V>)
    requires |keys| == |xs| && n <= |xs|
    ensures r.Some? ==> exists j :: 0 <= j < n && keys[j] == k && xs[j] == r
                                 && forall m :: j < m < n && keys[m] == k ==> xs[m].None?
    ensures r.None? ==> forall j :: 0 <= j < n && keys[j] == k ==> xs[j].None?
  {
    if n == 0 then None
    else if keys[n - 1] == k && xs[n - 1].Some? then xs[n - 1]
    else LastPresent(keys, xs, k, n - 1)
  }

  /** The sum over the first `n` rows of group `k` of its values, a missing
      value counting as 0 (`s.fillna(0).cumsum()` within a group). */
  function GroupRunningSum<K(==)>(keys: seq<K>, xs: seq<Option<real>>, k: K, n: nat): real
    requires |keys| == |xs| && n <= |xs|
  {
    if n == 0 then 0.0
    else GroupRunningSum(keys, xs, k, n - 1)
         + (if keys[n - 1] == k && xs[n - 1].Some? then xs[n - 1].value else 0.0)
  }

  /** Rows of other groups leave a group's running sum where it was. */
  lemma {:induction false} RunningSumSkips<K>(keys: seq<K>, xs: seq<Option<real>>, k: K, lo: nat, n: nat)
    requires |keys| == |xs| && lo <= n <= |xs|
    requires forall m :: lo <= m < n ==> keys[m] != k
    ensures GroupRunningSum(keys, xs, k, n) == GroupRunningSum(keys, xs, k, lo)
    decreases n
  {
    if n > lo {
      RunningSumSkips(keys, xs, k, lo, n - 1);
    }
  }

  /** The running sum is a cumulative sum: at each row it is the sum at the
      group's previous row (0 at the group's first row) plus this row's value. */
  lemma RunningSumStep<K>(keys: seq<K>, xs: seq<Option<real>>, i: nat)
    requires |keys| == |xs| && i < |xs|
    ensures GroupRunningSum(keys, xs, keys[i], i + 1)
            == (match LastIndexOf(keys, keys[i], i)
                case None => 0.0
                case Some(j) => GroupRunningSum(keys, xs, keys[i], j + 1))
               + (if xs[i].Some? then xs[i].value else 0.0)
  {
    match LastIndexOf(keys, keys[i], i)
    case None =>
      RunningSumSkips(keys, xs, keys[i], 0, i);
    case Some(j) =>
      RunningSumSkips(keys, xs, keys[i], j + 1, i);
  }
}
