/** programs/riad_clean.py: the same Call Report panel as
    deposit_interest_rate.py (CallReport.MergedFilings and the derived
    columns), except that rows without a positive interest-bearing average
    are dropped before the rates and changes are taken, that rows missing a
    change are dropped, and that there is no core-deposit column. Also the
    implied interest used for the aggregate series and the per-date
    clipping of the bank-level rates. */
module RiadClean {
  import opened Tables
  import opened Sorting
  import opened Dedup
  import opened CallReport

  /** The value columns written to data/processed/deposit_interest_rate.csv. */
  const OutputColumns: set<string> :=
    {RateOnDeposit, RateOnInterestBearing, AverageDeposit, AverageInterestBearing,
     DRateOnDeposit, DRateOnInterestBearing, DAverageDeposit, DAverageInterestBearing}

  /** Line 46: a missing average compares false, so only a present positive one passes. */
  predicate PositiveInterestBearing(f: Filing)
  {
    var a := Cell(f.items, AverageInterestBearing);
    a.Some? && a.value > 0.0
  }

  /** Lines 69-72: the four changes the dropna looks at are all present. */
  predicate ChangesPresent(f: Filing)
  {
    && Cell(f.items, DRateOnDeposit).Some?
    && Cell(f.items, DRateOnInterestBearing).Some?
    && Cell(f.items, DAverageDeposit).Some?
    && Cell(f.items, DAverageInterestBearing).Some?
  }

  /** The columns lines 48-67 add after the filter. */
  const ScreenColumns: set<string> :=
    {RateOnDeposit, RateOnInterestBearing, DRateOnDeposit, DRateOnInterestBearing, DAverageDeposit, DAverageInterestBearing}

  /** Lines 40-67 on the panel `df`: `averaged` is `df` with the two
      averages added (lines 41-44); `screened` holds, in order, its rows
      with a positive interest-bearing average (line 46), each with the
      rates and changes added and nothing else changed. The changes are
      taken after the filter, so each compares a row with the row above it
      in the filtered panel. */
  ghost predicate Screened(df: seq<Filing>, averaged: seq<Filing>, screened: seq<Filing>)
  {
    && Keeps(averaged, df, {AverageDeposit, AverageInterestBearing})
    && (forall i :: 0 <= i < |averaged| ==> AveragesAt(averaged, i))
    && Keeps(screened, Filter(averaged, PositiveInterestBearing), ScreenColumns)
    && (forall i :: 0 <= i < |screened| ==> RatesAt(screened, i) && RateChangesAt(screened, i) && BalanceChangesAt(screened, i))
  }

  /** Lines 40-67 on the merged, sorted panel: averages, the positive
      filter, rates and changes. */
  method Screen(df: seq<Filing>) returns (ghost averaged: seq<Filing>, screened: seq<Filing>)
    requires SortedBy(df, LagOrder) && UniqueKeys(df, FilingKey)
    ensures Screened(df, averaged, screened)
    ensures SortedBy(screened, LagOrder) && UniqueKeys(screened, FilingKey)
    ensures forall i :: 0 <= i < |screened| ==> FromFiling(screened[i], df)
    ensures forall i :: 0 <= i < |screened| ==> PositiveInterestBearing(screened[i])
    ensures forall i :: 0 <= i < |screened| ==> RatesAt(screened, i) && RateChangesAt(screened, i) && BalanceChangesAt(screened, i)
  {
    var av := AddAverages(df);
    averaged := av;
    SameRowsUnique(av, df);
    var kept := Filter(av, PositiveInterestBearing);
    FilterSorted(av, PositiveInterestBearing, LagOrder);
    FilterUnique(av, PositiveInterestBearing, FilingKey);
    var d1 := AddRates(kept);
    SameRowsSorted(d1, kept);
    var d2 := AddRateChanges(d1);
    screened := AddBalanceChanges(d2);
    KeepsTransitive(screened, d2, d1, {DAverageDeposit, DAverageInterestBearing}, {DRateOnDeposit, DRateOnInterestBearing});
    var x := {DAverageDeposit, DAverageInterestBearing} + {DRateOnDeposit, DRateOnInterestBearing};
    KeepsTransitive(screened, d1, kept, x, {RateOnDeposit, RateOnInterestBearing});
    assert x + {RateOnDeposit, RateOnInterestBearing} == ScreenColumns;
    RatesKept(screened, d1, x);
    RateChangesKept(screened, d2, {DAverageDeposit, DAverageInterestBearing});
    SameRowsUnique(screened, kept);
    ScreenedRowsFrom(df, av, kept, screened);
    ScreenedPositive(kept, screened, ScreenColumns);
  }

  lemma ScreenedRowsFrom(df: seq<Filing>, averaged: seq<Filing>, kept: seq<Filing>, screened: seq<Filing>)
    requires SameRowsButItems(averaged, df) && SameRowsButItems(screened, kept)
    requires forall j :: 0 <= j < |kept| ==> kept[j] in averaged
    ensures forall i :: 0 <= i < |screened| ==> FromFiling(screened[i], df)
  {
    forall i | 0 <= i < |screened|
      ensures FromFiling(screened[i], df)
    {
      assert kept[i] in averaged;
      var k :| 0 <= k < |averaged| && averaged[k] == kept[i];
      assert screened[i].(items := kept[i].items) == kept[i];
      assert averaged[k].(items := df[k].items) == df[k];
      assert df[k].(items := screened[i].items) == screened[i];
    }
  }

  lemma ScreenedPositive(kept: seq<Filing>, screened: seq<Filing>, changed: set<string>)
    requires Keeps(screened, kept, changed) && AverageInterestBearing !in changed
    requires forall j :: 0 <= j < |kept| ==> PositiveInterestBearing(kept[j])
    ensures forall i :: 0 <= i < |screened| ==> PositiveInterestBearing(screened[i])
  {
    forall i | 0 <= i < |screened|
      ensures PositiveInterestBearing(screened[i])
    {
      assert Cell(screened[i].items, AverageInterestBearing) == Cell(kept[i].items, AverageInterestBearing);
    }
  }

  /** A row taken from a row taken from a filing is taken from that filing. */
  lemma FromFilingTransitive(a: seq<Filing>, b: seq<Filing>, c: seq<Filing>)
    requires forall i :: 0 <= i < |a| ==> FromFiling(a[i], b)
    requires forall j :: 0 <= j < |b| ==> FromFiling(b[j], c)
    ensures forall i :: 0 <= i < |a| ==> FromFiling(a[i], c)
  {
    forall i | 0 <= i < |a|
      ensures FromFiling(a[i], c)
    {
      assert FromFiling(a[i], b);
      var d :| d in b && d.(items := a[i].items) == a[i];
      var k :| 0 <= k < |b| && b[k] == d;
      assert FromFiling(d, c);
      var r :| r in c && r.(items := d.items) == d;
      assert r.(items := a[i].items) == a[i];
    }
  }

  /** The script up to the CSV it writes. `df` is the merged panel of
      CallReport.MergedFilings (with `latest`, `rconLatest` and `merged` its
      intermediate tables), `averaged` and `screened` the panel before and
      after the positive filter, as Screened says, and `out` the rows
      written: in order, the screened rows with all four changes (the
      dropna of line 69), each cut down to the eight value columns. Every
      written row has a positive interest-bearing average and comes from a
      latest riad filing, and the rows are in (rssd9001, rssd9999,
      rssd9050) order, one per key. */
  method RiadClean(riad: seq<Filing>, rcon: seq<Filing>)
    returns (screened: seq<Filing>, out: seq<Filing>, ghost latest: seq<Filing>, ghost rconLatest: seq<Filing>,
             ghost merged: seq<Filing>, ghost df: seq<Filing>, ghost averaged: seq<Filing>)
    ensures MergedPanel(riad, rcon, latest, rconLatest, merged, df)
    ensures Screened(df, averaged, screened)
    ensures |out| == |Positions(screened, ChangesPresent)|
    ensures forall j :: 0 <= j < |out| ==> out[j] == Restrict(screened[Positions(screened, ChangesPresent)[j]], OutputColumns)
    ensures SortedBy(screened, LagOrder) && UniqueKeys(screened, FilingKey)
    ensures forall i :: 0 <= i < |screened| ==> FromFiling(screened[i], riad)
    ensures forall i :: 0 <= i < |screened| ==> PositiveInterestBearing(screened[i])
    ensures SortedBy(out, LagOrder) && UniqueKeys(out, FilingKey)
    ensures forall k :: 0 <= k < |screened| && ChangesPresent(screened[k]) ==> Restrict(screened[k], OutputColumns) in out
    ensures forall i :: 0 <= i < |out| ==> ChangesPresent(out[i]) && PositiveInterestBearing(out[i])
    ensures forall i :: 0 <= i < |out| ==> out[i].items.Keys <= OutputColumns
  {
    var panel;
    panel, latest, rconLatest, merged := MergedFilings(riad, rcon);
    df := panel;
    averaged, screened := Screen(panel);
    FromFilingTransitive(screened, panel, riad);
    var complete := Filter(screened, ChangesPresent);
    out := Select(complete, OutputColumns);
    WrittenOrdered(screened, complete, out);
    WrittenInOrder(screened, out);
    WrittenKept(screened, out);
    WrittenPassing(screened, out);
  }

  /** The rows written are the screened rows with all four changes, in order. */
  lemma WrittenInOrder(screened: seq<Filing>, out: seq<Filing>)
    requires out == Select(Filter(screened, ChangesPresent), OutputColumns)
    ensures |out| == |Positions(screened, ChangesPresent)|
    ensures forall j :: 0 <= j < |out| ==> out[j] == Restrict(screened[Positions(screened, ChangesPresent)[j]], OutputColumns)
  {
  }

  /** The dropna of line 69 and the column selection of line 74 keep the
      order and the keys. */
  lemma WrittenOrdered(screened: seq<Filing>, complete: seq<Filing>, out: seq<Filing>)
    requires complete == Filter(screened, ChangesPresent) && out == Select(complete, OutputColumns)
    requires SortedBy(screened, LagOrder) && UniqueKeys(screened, FilingKey)
    ensures SortedBy(out, LagOrder) && UniqueKeys(out, FilingKey)
  {
    FilterSorted(screened, ChangesPresent, LagOrder);
    FilterUnique(screened, ChangesPresent, FilingKey);
    SameRowsSorted(out, complete);
    SameRowsUnique(out, complete);
  }

  /** Every row the dropna keeps is written, restricted to the output columns. */
  lemma WrittenKept(screened: seq<Filing>, out: seq<Filing>)
    requires |out| == |Positions(screened, ChangesPresent)|
    requires forall j :: 0 <= j < |out| ==> out[j] == Restrict(screened[Positions(screened, ChangesPresent)[j]], OutputColumns)
    ensures forall k :: 0 <= k < |screened| && ChangesPresent(screened[k]) ==> Restrict(screened[k], OutputColumns) in out
  {
    var p := Positions(screened, ChangesPresent);
    forall k | 0 <= k < |screened| && ChangesPresent(screened[k])
      ensures Restrict(screened[k], OutputColumns) in out
    {
      assert k in p;
      var j :| 0 <= j < |p| && p[j] == k;
      assert out[j] == Restrict(screened[k], OutputColumns);
    }
  }

  /** A written row has all four changes and, from the earlier screen, a
      positive interest-bearing average: the column selection keeps the
      columns both tests look at. */
  lemma WrittenPassing(screened: seq<Filing>, out: seq<Filing>)
    requires |out| == |Positions(screened, ChangesPresent)|
    requires forall j :: 0 <= j < |out| ==> out[j] == Restrict(screened[Positions(screened, ChangesPresent)[j]], OutputColumns)
    requires forall i :: 0 <= i < |screened| ==> PositiveInterestBearing(screened[i])
    ensures forall i :: 0 <= i < |out| ==> ChangesPresent(out[i]) && PositiveInterestBearing(out[i])
    ensures forall i :: 0 <= i < |out| ==> out[i].items.Keys <= OutputColumns
  {
    var p := Positions(screened, ChangesPresent);
    forall i | 0 <= i < |out|
      ensures ChangesPresent(out[i]) && PositiveInterestBearing(out[i])
    {
      assert ChangesPresent(screened[p[i]]) && PositiveInterestBearing(screened[p[i]]);
    }
  }

  // ---------------------------------------------------------------------------
  // Implied interest (line 83)
  // ---------------------------------------------------------------------------

  /** `_implied_interest = interest_rate_on_deposit * average_deposit / 4`. */
  function ImpliedInterest(f: Filing): Option<real>
  {
    Div(Mul(Cell(f.items, RateOnDeposit), Cell(f.items, AverageDeposit)), Some(4.0))
  }

  /** Undoing the annualisation gives back the interest the rate was taken
      from, on every row whose average deposit is present and nonzero; the
      column interest_on_deposit itself is not written out. */
  lemma ImpliedInterestRecoversInterest(screened: seq<Filing>, i: nat)
    requires i < |screened| && RatesAt(screened, i)
    requires Cell(screened[i].items, AverageDeposit).Some? && Cell(screened[i].items, AverageDeposit).value != 0.0
    ensures ImpliedInterest(screened[i]) == Cell(screened[i].items, "interest_on_deposit")
  {
    var rate := Cell(screened[i].items, RateOnDeposit);
    var interest := Cell(screened[i].items, "interest_on_deposit");
    var avg := Cell(screened[i].items, AverageDeposit);
    if rate.Some? {
      var r, a, x := rate.value, avg.value, interest.value;
      assert r * a == 4.0 * x;
      assert r * a / 4.0 == x;
      assert Mul(rate, avg) == Some(r * a);
    }
  }

  // ---------------------------------------------------------------------------
  // Per-date clipping (lines 100-105)
  // ---------------------------------------------------------------------------

  /** A row of `per_bank_rates`: one bank and report date with its mean rates. */
  datatype BankQuarter = BankQuarter(bank: int, date: Date, cells: Cells)

  const WinsorColumns: seq<string> := [RateOnDeposit, RateOnInterestBearing]

  /** One row of `per_bank_w[col].clip(lower=lower, upper=upper)`. */
  function ClipRow(row: BankQuarter, c: string, lo: real, hi: real): (r: BankQuarter)
    ensures r.(cells := row.cells) == row
    ensures forall n :: n != c ==> Cell(r.cells, n) == Cell(row.cells, n)
    ensures IsClipped(Cell(r.cells, c), Cell(row.cells, c), lo, hi)
  {
    row.(cells := SetCell(row.cells, c, ClipCell(Cell(row.cells, c), lo, hi)))
  }

  /** `per_bank_w[col] = per_bank_w[col].clip(lower=lower, upper=upper)`, with
      each row's bounds those of its report date. */
  function ClipColumn(rows: seq<BankQuarter>, c: string, lower: (string, Date) -> real, upper: (string, Date) -> real)
    : (r: seq<BankQuarter>)
    ensures |r| == |rows|
    ensures forall i :: 0 <= i < |rows| ==> r[i] == ClipRow(rows[i], c, lower(c, rows[i].date), upper(c, rows[i].date))
  {
    seq(|rows|, i requires 0 <= i < |rows| => ClipRow(rows[i], c, lower(c, rows[i].date), upper(c, rows[i].date)))
  }

  /** The loop over `winsor_cols`: each of the two rate columns is clipped
      into its date's [lower, upper]; the bounds are the 0.5% and 99.5%
      quantiles of that column on that date, taken as parameters. */
  method ClipPerDate(rows: seq<BankQuarter>, lower: (string, Date) -> real, upper: (string, Date) -> real)
    returns (out: seq<BankQuarter>)
    ensures |out| == |rows|
    ensures forall i :: 0 <= i < |rows| ==> out[i].(cells := rows[i].cells) == rows[i]
    ensures forall i, c :: 0 <= i < |rows| && c !in WinsorColumns ==> Cell(out[i].cells, c) == Cell(rows[i].cells, c)
    ensures forall i, c :: 0 <= i < |rows| && c in WinsorColumns ==>
              IsClipped(Cell(out[i].cells, c), Cell(rows[i].cells, c), lower(c, rows[i].date), upper(c, rows[i].date))
  {
    out := rows;
    for k := 0 to |WinsorColumns|
      invariant |out| == |rows|
      invariant forall i :: 0 <= i < |rows| ==> out[i].(cells := rows[i].cells) == rows[i]
      invariant forall i, c :: 0 <= i < |rows| && c !in WinsorColumns[..k] ==> Cell(out[i].cells, c) == Cell(rows[i].cells, c)
      invariant forall i, c :: 0 <= i < |rows| && c in WinsorColumns[..k] ==>
                  IsClipped(Cell(out[i].cells, c), Cell(rows[i].cells, c), lower(c, rows[i].date), upper(c, rows[i].date))
    {
      var c := WinsorColumns[k];
      assert c !in WinsorColumns[..k];
      out := ClipColumn(out, c, lower, upper);
      assert WinsorColumns[..k + 1] == WinsorColumns[..k] + [c];
    }
    assert WinsorColumns[..|WinsorColumns|] == WinsorColumns;
  }
}
