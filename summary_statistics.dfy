/** programs/analysis/summary_statistics.py: the 2022Q1 cross-section of the
    working panel, its bank and bank-quarter counts, the share of assets
    held by the top decile of banks, the counts of banks above and below
    one million (ASSET is in thousands), and which variables get a row in
    the two summary tables. */
module SummaryStatistics {
  import opened Tables
  import opened WorkingPanel

  const QuarterEnd: string := "2022-03-31"
  const AssetThreshold: real := 1000000.0

  // ---------------------------------------------------------------------------
  // The cross-section and its counts (lines 9-14)
  // ---------------------------------------------------------------------------

  predicate OnQuarterEnd(r: PanelRow)
  {
    r.date == QuarterEnd
  }

  /** `df[df["Date"] == quarter_end]`: the Date text is compared as it is. */
  function Q1Rows(df: seq<PanelRow>): (q1: seq<PanelRow>)
    ensures |q1| <= |df|
    ensures forall r :: r in q1 <==> r in df && r.date == QuarterEnd
  {
    Filter(df, OnQuarterEnd)
  }

  /** `df_q1["Bank ID"].nunique()`. */
  function NumBanks(q1: seq<PanelRow>): nat
  {
    |Distinct(Banks(q1))|
  }

  /** There are no more banks than bank-quarters, and at least one bank as
      soon as there is a row. */
  lemma BanksAtMostBankQuarters(q1: seq<PanelRow>)
    ensures NumBanks(q1) <= |q1|
    ensures q1 != [] ==> NumBanks(q1) >= 1
  {
    DistinctNoLonger(Banks(q1));
    if q1 != [] {
      assert Banks(q1)[0] in Distinct(Banks(q1));
    }
  }

  lemma {:induction false} DistinctNoLonger<K>(ks: seq<K>)
    ensures |Distinct(ks)| <= |ks|
    decreases |ks|
  {
    if ks != [] {
      DistinctNoLonger(ks[..|ks| - 1]);
    }
  }

  /** `df_q1["ASSET"].dropna()`. */
  function Assets(q1: seq<PanelRow>): seq<real>
  {
    DropMissing(Column(q1, Asset))
  }

  // ---------------------------------------------------------------------------
  // The top-decile asset share (lines 22-28)
  // ---------------------------------------------------------------------------

  /** `max(1, int(np.ceil(0.10 * n)))`: the smallest count that reaches a
      tenth of `n`, and never less than one. */
  function TopK(n: nat): (k: nat)
    ensures k >= 1
    ensures n > 0 ==> 10 * (k - 1) < n <= 10 * k
    ensures n == 0 ==> k == 1
  {
    var c := (n + 9) / 10;
    if c < 1 then 1 else c
  }

  ghost predicate SortedDescending(s: seq<real>)
  {
    forall i, j :: 0 <= i < j < |s| ==> s[i] >= s[j]
  }

  function InsertDescending(x: real, s: seq<real>): (r: seq<real>)
    requires SortedDescending(s)
    ensures SortedDescending(r)
    ensures multiset(r) == multiset(s) + multiset{x}
    ensures |r| == |s| + 1
    decreases |s|
  {
    if s == [] then [x]
    else if x >= s[0] then
      ConsSorted(x, s);
      [x] + s
    else
      var t := InsertDescending(x, s[1..]);
      assert s == [s[0]] + s[1..];
      HeadBoundsInsert(x, s, t);
      ConsSorted(s[0], t);
      [s[0]] + t
  }

  /** A value at least every element of a sorted sequence may go in front. */
  lemma ConsSorted(a: real, t: seq<real>)
    requires SortedDescending(t)
    requires forall j :: 0 <= j < |t| ==> t[j] <= a
    ensures SortedDescending([a] + t)
  {
    forall i, j | 0 <= i < j < |[a] + t|
      ensures ([a] + t)[i] >= ([a] + t)[j]
    {
      if i > 0 {
        assert ([a] + t)[i] == t[i - 1] && ([a] + t)[j] == t[j - 1];
      }
    }
  }

  /** Inserting a smaller value behind the head keeps the head largest. */
  lemma HeadBoundsInsert(x: real, s: seq<real>, t: seq<real>)
    requires s != [] && SortedDescending(s) && x < s[0]
    requires multiset(t) == multiset(s[1..]) + multiset{x}
    ensures forall j :: 0 <= j < |t| ==> t[j] <= s[0]
  {
    forall j | 0 <= j < |t|
      ensures t[j] <= s[0]
    {
      assert t[j] in multiset(t);
      if t[j] != x {
        assert t[j] in multiset(s[1..]);
        var k :| 0 <= k < |s[1..]| && s[1..][k] == t[j];
        assert s[k + 1] == t[j];
      }
    }
  }

  /** `sort_values(ascending=False)`: the same values, largest first. */
  function SortDescending(xs: seq<real>): (s: seq<real>)
    ensures SortedDescending(s)
    ensures multiset(s) == multiset(xs)
    ensures |s| == |xs|
    decreases |xs|
  {
    if xs == [] then []
    else
      assert xs == xs[..|xs| - 1] + [xs[|xs| - 1]];
      InsertDescending(xs[|xs| - 1], SortDescending(xs[..|xs| - 1]))
  }

  /** Sorting does not change the sum. */
  lemma {:induction false} SumOfInsert(x: real, s: seq<real>)
    requires SortedDescending(s)
    ensures Sum(InsertDescending(x, s)) == Sum(s) + x
    decreases |s|
  {
    if s == [] {
      assert [x][..0] == [];
    } else if x >= s[0] {
      SumAppend([x], s);
      assert [x][..0] == [];
    } else {
      var t := InsertDescending(x, s[1..]);
      SumOfInsert(x, s[1..]);
      SumAppend([s[0]], t);
      SumAppend([s[0]], s[1..]);
      assert [s[0]][..0] == [];
      assert s == [s[0]] + s[1..];
    }
  }

  lemma {:induction false} SumOfSorted(xs: seq<real>)
    ensures Sum(SortDescending(xs)) == Sum(xs)
    decreases |xs|
  {
    if xs != [] {
      SumOfSorted(xs[..|xs| - 1]);
      SumOfInsert(xs[|xs| - 1], SortDescending(xs[..|xs| - 1]));
    }
  }

  /** `.head(top_k)`: at most `k` values from the front. */
  function Head(s: seq<real>, k: nat): (h: seq<real>)
    ensures |h| == if k < |s| then k else |s|
    ensures h == s[..|h|]
  {
    if k < |s| then s[..k] else s
  }

  /** The `k` largest values: none of them is below a value left out. */
  function TopValues(xs: seq<real>, k: nat): (top: seq<real>)
    ensures |top| == if k < |xs| then k else |xs|
    ensures forall i, j :: 0 <= i < |top| <= j < |xs| ==> top[i] >= SortDescending(xs)[j]
  {
    Head(SortDescending(xs), k)
  }

  /** `top_decile_share`: the assets of the TopK(n) largest banks over all
      assets, missing when there are no rows or the total is not positive.
      `n` counts every Q1 row, whether or not its ASSET is present. */
  function TopDecileShare(q1: seq<PanelRow>): (r: Option<real>)
    ensures r.Some? <==> |q1| > 0 && Sum(Assets(q1)) > 0.0
  {
    if |q1| > 0 then
      var assets := Assets(q1);
      var total := Sum(assets);
      if total > 0.0 then Some(Sum(TopValues(assets, TopK(|q1|))) / total) else None
    else None
  }

  /** With nonnegative assets the share is a fraction, and it is 1 when the
      top decile takes every bank with a reported ASSET. */
  lemma TopDecileShareIsFraction(q1: seq<PanelRow>)
    requires forall v :: v in Assets(q1) ==> v >= 0.0
    requires TopDecileShare(q1).Some?
    ensures 0.0 <= TopDecileShare(q1).value <= 1.0
    ensures TopK(|q1|) >= |Assets(q1)| ==> TopDecileShare(q1).value == 1.0
  {
    TopSumBounds(Assets(q1), TopK(|q1|));
    Fraction(Sum(TopValues(Assets(q1), TopK(|q1|))), Sum(Assets(q1)));
  }

  /** The largest `k` of nonnegative values sum to at most the total, and to
      the total when `k` takes them all. */
  lemma TopSumBounds(assets: seq<real>, k: nat)
    requires forall v :: v in assets ==> v >= 0.0
    ensures 0.0 <= Sum(TopValues(assets, k)) <= Sum(assets)
    ensures k >= |assets| ==> Sum(TopValues(assets, k)) == Sum(assets)
  {
    SumOfSorted(assets);
    SortedNonNegative(assets);
    HeadSumBounds(SortDescending(assets), k);
  }

  /** A front part of nonnegative values sums to at most the whole. */
  lemma HeadSumBounds(s: seq<real>, k: nat)
    requires forall i :: 0 <= i < |s| ==> s[i] >= 0.0
    ensures 0.0 <= Sum(Head(s, k)) <= Sum(s)
    ensures k >= |s| ==> Sum(Head(s, k)) == Sum(s)
  {
    var top := Head(s, k);
    var rest := s[|top|..];
    assert s == top + rest;
    SumAppend(top, rest);
    SumNonNegative(top);
    SumNonNegative(rest);
  }

  /** Sorting nonnegative values gives nonnegative values. */
  lemma SortedNonNegative(assets: seq<real>)
    requires forall v :: v in assets ==> v >= 0.0
    ensures forall i :: 0 <= i < |SortDescending(assets)| ==> SortDescending(assets)[i] >= 0.0
  {
    var s := SortDescending(assets);
    forall i | 0 <= i < |s| ensures s[i] >= 0.0 {
      assert s[i] in multiset(s);
      assert s[i] in assets;
    }
  }

  lemma Fraction(a: real, b: real)
    requires 0.0 <= a <= b && b > 0.0
    ensures 0.0 <= a / b <= 1.0
    ensures a == b ==> a / b == 1.0
  {
  }

  // ---------------------------------------------------------------------------
  // Counts above and below the threshold (lines 31-33)
  // ---------------------------------------------------------------------------

  function Above(t: real): real -> bool
  {
    x => x > t
  }

  function Below(t: real): real -> bool
  {
    x => x < t
  }

  function At(t: real): real -> bool
  {
    x => x == t
  }

  /** `(xs <op> t).sum()`: the number of true entries of the comparison. */
  function CountTrue(xs: seq<real>, test: real -> bool): nat
  {
    if xs == [] then 0 else CountTrue(xs[..|xs| - 1], test) + (if test(xs[|xs| - 1]) then 1 else 0)
  }

  /** The count is the number of positions that pass. */
  lemma {:induction false} CountTrueIsSize(xs: seq<real>, test: real -> bool)
    ensures CountTrue(xs, test) == |set i | 0 <= i < |xs| && test(xs[i])|
    decreases |xs|
  {
    var after := set i | 0 <= i < |xs| && test(xs[i]);
    if xs == [] {
      assert after == {};
    } else {
      var init := xs[..|xs| - 1];
      var n := |xs| - 1;
      CountTrueIsSize(init, test);
      var before := set i | 0 <= i < |init| && test(init[i]);
      assert after == before + (if test(xs[n]) then {n} else {});
      assert n !in before;
    }
  }

  /** `(assets > threshold).sum()`. */
  function NumAbove(assets: seq<real>): nat
  {
    CountTrue(assets, Above(AssetThreshold))
  }

  /** `(assets < threshold).sum()`. */
  function NumBelow(assets: seq<real>): nat
  {
    CountTrue(assets, Below(AssetThreshold))
  }

  /** Every asset is above, below or exactly at the threshold. */
  lemma {:induction false} ThresholdSplit(assets: seq<real>, t: real)
    ensures CountTrue(assets, Above(t)) + CountTrue(assets, Below(t)) + CountTrue(assets, At(t)) == |assets|
    decreases |assets|
  {
    if assets != [] {
      ThresholdSplit(assets[..|assets| - 1], t);
    }
  }

  /** A value that passes is counted. */
  lemma {:induction false} CountTrueOfMember(xs: seq<real>, test: real -> bool, i: nat)
    requires i < |xs| && test(xs[i])
    ensures CountTrue(xs, test) >= 1
    decreases |xs|
  {
    if i < |xs| - 1 {
      CountTrueOfMember(xs[..|xs| - 1], test, i);
    }
  }

  /** The two counts never exceed the number of reported assets, and an
      asset of exactly one million is in neither, so then they fall short. */
  lemma AboveBelowCounts(assets: seq<real>)
    ensures NumAbove(assets) + NumBelow(assets) <= |assets|
    ensures AssetThreshold in assets ==> NumAbove(assets) + NumBelow(assets) < |assets|
  {
    ThresholdSplit(assets, AssetThreshold);
    if AssetThreshold in assets {
      var i :| 0 <= i < |assets| && assets[i] == AssetThreshold;
      CountTrueOfMember(assets, At(AssetThreshold), i);
    }
  }

  /** The two counts are the numbers of assets strictly above and strictly
      below one million. */
  lemma ThresholdCounts(assets: seq<real>)
    ensures NumAbove(assets) == |set i | 0 <= i < |assets| && assets[i] > AssetThreshold|
    ensures NumBelow(assets) == |set i | 0 <= i < |assets| && assets[i] < AssetThreshold|
  {
    CountTrueIsSize(assets, Above(AssetThreshold));
    CountTrueIsSize(assets, Below(AssetThreshold));
    assert (set i | 0 <= i < |assets| && Above(AssetThreshold)(assets[i])) == (set i | 0 <= i < |assets| && assets[i] > AssetThreshold);
    assert (set i | 0 <= i < |assets| && Below(AssetThreshold)(assets[i])) == (set i | 0 <= i < |assets| && assets[i] < AssetThreshold);
  }

  // ---------------------------------------------------------------------------
  // Which variables get a summary row (lines 65-78 and 118-131)
  // ---------------------------------------------------------------------------

  /** A summary row: the variable name and the values `describe()` summarises. */
  datatype SummaryRow = SummaryRow(name: string, sample: seq<real>)

  /** `pd.to_numeric(df_q1[col]).dropna()`. */
  function Sample(q1: seq<PanelRow>, col: string): seq<real>
  {
    DropMissing(Column(q1, col))
  }

  /** The row appended for variable `v`, if any: the column exists and has
      at least one value. */
  function RowFor(q1: seq<PanelRow>, columns: set<string>, v: (string, string)): Option<SummaryRow>
  {
    if v.1 in columns && |Sample(q1, v.1)| > 0 then Some(SummaryRow(v.0, Sample(q1, v.1))) else None
  }

  /** The rows the loop appends, in the order of `vars`. */
  function EmittedRows(q1: seq<PanelRow>, columns: set<string>, vars: seq<(string, string)>): seq<SummaryRow>
    decreases |vars|
  {
    if vars == [] then []
    else
      var r := RowFor(q1, columns, vars[|vars| - 1]);
      EmittedRows(q1, columns, vars[..|vars| - 1]) + (if r.Some? then [r.value] else [])
  }

  /** The loop of lines 65-78 (and 118-131). */
  method SummaryRows(q1: seq<PanelRow>, columns: set<string>, vars: seq<(string, string)>)
    returns (rows: seq<SummaryRow>)
    ensures rows == EmittedRows(q1, columns, vars)
  {
    rows := [];
    for i := 0 to |vars|
      invariant rows == EmittedRows(q1, columns, vars[..i])
    {
      assert vars[..i + 1][..i] == vars[..i];
      var name := vars[i].0;
      var col := vars[i].1;
      if col in columns {
        var s := Sample(q1, col);
        if |s| > 0 {
          rows := rows + [SummaryRow(name, s)];
        }
      }
    }
    assert vars[..|vars|] == vars;
  }

  /** Every emitted row is one of the variables, with a nonempty sample of a
      column that exists, and there are no more rows than variables. */
  lemma {:induction false} EmittedRowsFromVariables(q1: seq<PanelRow>, columns: set<string>, vars: seq<(string, string)>)
    ensures |EmittedRows(q1, columns, vars)| <= |vars|
    ensures forall r :: r in EmittedRows(q1, columns, vars) ==>
              exists i :: 0 <= i < |vars| && RowFor(q1, columns, vars[i]) == Some(r)
    decreases |vars|
  {
    if vars != [] {
      var init := vars[..|vars| - 1];
      EmittedRowsFromVariables(q1, columns, init);
      forall r | r in EmittedRows(q1, columns, vars)
        ensures exists i :: 0 <= i < |vars| && RowFor(q1, columns, vars[i]) == Some(r)
      {
        if r in EmittedRows(q1, columns, init) {
          var i :| 0 <= i < |init| && RowFor(q1, columns, init[i]) == Some(r);
          assert vars[i] == init[i];
        } else {
          assert RowFor(q1, columns, vars[|vars| - 1]) == Some(r);
        }
      }
    }
  }

  /** Every variable whose column exists and has a value gets its row. */
  lemma {:induction false} EmittedRowsComplete(q1: seq<PanelRow>, columns: set<string>, vars: seq<(string, string)>)
    ensures forall i :: 0 <= i < |vars| && RowFor(q1, columns, vars[i]).Some? ==>
              RowFor(q1, columns, vars[i]).value in EmittedRows(q1, columns, vars)
    decreases |vars|
  {
    if vars != [] {
      var init := vars[..|vars| - 1];
      EmittedRowsComplete(q1, columns, init);
      forall i | 0 <= i < |vars| && RowFor(q1, columns, vars[i]).Some?
        ensures RowFor(q1, columns, vars[i]).value in EmittedRows(q1, columns, vars)
      {
        if i < |init| {
          assert vars[i] == init[i];
        }
      }
    }
  }

  /** When every present cell belongs to a listed column, a variable gets a
      row exactly when some Q1 row has a value in its column. */
  lemma RowForPresentValue(q1: seq<PanelRow>, columns: set<string>, v: (string, string))
    requires forall i, c :: 0 <= i < |q1| && Cell(q1[i].cells, c).Some? ==> c in columns
    ensures RowFor(q1, columns, v).Some? <==> exists i :: 0 <= i < |q1| && Cell(q1[i].cells, v.1).Some?
  {
    var col := Column(q1, v.1);
    if exists i :: 0 <= i < |q1| && Cell(q1[i].cells, v.1).Some? {
      var i :| 0 <= i < |q1| && Cell(q1[i].cells, v.1).Some?;
      assert col[i].Some?;
    }
  }

  /** The variables of Table 2 (lines 53-59), label then column. */
  const Table2Variables: seq<(string, string)> := [
    ("zS", "sophistication_index_z"),
    ("zR", "branch_density_z"),
    ("zH", "hhi_z"),
    ("Metropolitan dummy", "metro_dummy"),
    ("zY", "log_median_hh_income_z")
  ]

  /** The variables of the growth table (lines 106-114). */
  const GrowthVariables: seq<(string, string)> := [
    ("All deposits (growth)", "d_average_deposit"),
    ("Interest-bearing deposits (growth)", "d_average_interest_bearing_deposit"),
    ("Core deposits (growth)", "d_core_deposit"),
    ("Total loans (growth)", "d_total_loans"),
    ("Loans not for sale (growth)", "d_total_loans_not_for_sale"),
    ("Single-family mortgages (growth)", "d_single_family_loans"),
    ("C&I loans (growth)", "d_C&I")
  ]

  /** The headline numbers of lines 13-33. */
  datatype Headline = Headline(bankQuarters: nat, banks: nat, topDecileShare: Option<real>, above: nat, below: nat)

  /** The script on the working panel `df`, whose columns are `columns`:
      the headline numbers and the rows of the two tables. */
  method Summarise(df: seq<PanelRow>, columns: set<string>)
    returns (headline: Headline, table2: seq<SummaryRow>, growth: seq<SummaryRow>)
    ensures headline.bankQuarters == |Q1Rows(df)|
    ensures headline.banks == |Distinct(Banks(Q1Rows(df)))| == |set b | b in Banks(Q1Rows(df))|
    ensures headline.banks <= headline.bankQuarters
    ensures headline.topDecileShare == TopDecileShare(Q1Rows(df))
    ensures var assets := Assets(Q1Rows(df));
      && headline.above == |set i | 0 <= i < |assets| && assets[i] > AssetThreshold|
      && headline.below == |set i | 0 <= i < |assets| && assets[i] < AssetThreshold|
    ensures headline.above + headline.below <= |Assets(Q1Rows(df))|
    ensures table2 == EmittedRows(Q1Rows(df), columns, Table2Variables)
    ensures growth == EmittedRows(Q1Rows(df), columns, GrowthVariables)
  {
    var q1 := Q1Rows(df);
    var assets := Assets(q1);
    BanksAtMostBankQuarters(q1);
    DistinctCount(Banks(q1));
    AboveBelowCounts(assets);
    ThresholdCounts(assets);
    headline := Headline(|q1|, NumBanks(q1), TopDecileShare(q1), NumAbove(assets), NumBelow(assets));
    table2 := SummaryRows(q1, columns, Table2Variables);
    growth := SummaryRows(q1, columns, GrowthVariables);
  }
}
