/** programs/clean/deposit_interest_rate.py: the bank-quarter panel of
    deposit interest rates. The shared head (latest filings, quarterly
    interest, merged balances, lag order) is CallReport.MergedFilings; this
    module adds the core-deposit level from the control extracts, the
    two-point average balances, the annualised rates, their per-bank
    changes and the relative changes of the balances, and selects the
    columns written out. */
module DepositInterestRate {
  import opened Tables
  import opened Sorting
  import opened Dedup
  import opened Joins
  import opened CallReport

  const CoreDepositColumn := "core_deposit"
  const DCoreDeposit := "d_core_deposit"

  /** The value columns of data/processed/deposit_interest_rate.csv. */
  const OutputColumns: set<string> :=
    {RateOnDeposit, RateOnInterestBearing, AverageDeposit, AverageInterestBearing, CoreDepositColumn,
     DRateOnDeposit, DRateOnInterestBearing, DCoreDeposit, DAverageDeposit, DAverageInterestBearing}

  /** The columns lines 71-92 add. */
  const DerivedColumns: set<string> :=
    {AverageDeposit, AverageInterestBearing, RateOnDeposit, RateOnInterestBearing,
     DRateOnDeposit, DRateOnInterestBearing, DAverageDeposit, DAverageInterestBearing, DCoreDeposit}

  // ---------------------------------------------------------------------------
  // Core deposits from the control extracts
  // ---------------------------------------------------------------------------

  /** `rcon_ctrl['core_deposit'] = ...` (lines 55-61): each row gets the
      sum of its five core-deposit items; every other column stays. */
  function WithCoreDeposit(rows: seq<ControlFiling>): (r: seq<ControlFiling>)
    ensures |r| == |rows|
    ensures forall i :: 0 <= i < |rows| ==> r[i].(items := rows[i].items) == rows[i]
    ensures forall i :: 0 <= i < |rows| ==> Cell(r[i].items, CoreDepositColumn) == CoreDeposit(rows[i].items)
    ensures forall i, n :: 0 <= i < |rows| && n != CoreDepositColumn ==> Cell(r[i].items, n) == Cell(rows[i].items, n)
    ensures forall i :: 0 <= i < |rows| ==> Cell(r[i].items, CoreDepositColumn) == CoreDeposit(r[i].items)
  {
    var r := seq(|rows|, i requires 0 <= i < |rows| =>
      rows[i].(items := SetCell(rows[i].items, CoreDepositColumn, CoreDeposit(rows[i].items))));
    assert forall i :: 0 <= i < |rows| ==> CoreDeposit(r[i].items) == CoreDeposit(rows[i].items);
    r
  }

  /** The core deposit of the bank-quarter `k`: the five items summed over
      its latest rcon1 filing with its latest rcon2 filing merged in, and
      missing when rcon1 has no filing of `k`. */
  function CoreDepositOf(kept1: seq<ControlFiling>, kept2: seq<ControlFiling>, k: (int, Date)): Option<real>
  {
    match Lookup(kept1, ControlKey, k)
    case None => None
    case Some(f) => CoreDeposit(Merged(f.items, ControlItems(Lookup(kept2, ControlKey, k))))
  }

  /** `ctrl` is rcon_ctrl built from the latest control filings: row `i`
      is `kept1[i]` with the items of its rcon2 filing merged in and
      core_deposit, the core deposit of its key, added. */
  ghost predicate IsCoreDepositTable(ctrl: seq<ControlFiling>, kept1: seq<ControlFiling>, kept2: seq<ControlFiling>)
  {
    && |ctrl| == |kept1|
    && (forall i :: 0 <= i < |ctrl| ==> ctrl[i].(items := kept1[i].items) == kept1[i])
    && (forall i :: 0 <= i < |ctrl| ==>
          Cell(ctrl[i].items, CoreDepositColumn) == CoreDepositOf(kept1, kept2, ControlKey(kept1[i])))
    && (forall i, n :: 0 <= i < |ctrl| && n != CoreDepositColumn ==>
          Cell(ctrl[i].items, n) == Cell(Merged(kept1[i].items, ControlItems(Lookup(kept2, ControlKey, ControlKey(kept1[i])))), n))
  }

  /** Lines 40-61: rcon_ctrl, from `kept1` and `kept2`, the latest rcon1
      and rcon2 filings of each (rssd9001, rssd9999): one row per key of
      rcon1 and no other, each carrying core_deposit, the sum of its five
      items. */
  method CoreDepositTable(rcon1: seq<ControlFiling>, rcon2: seq<ControlFiling>)
    returns (ctrl: seq<ControlFiling>, ghost kept1: seq<ControlFiling>, ghost kept2: seq<ControlFiling>)
    ensures LatestOf(kept1, rcon1, ControlKey, ControlSubmitted) && LatestOf(kept2, rcon2, ControlKey, ControlSubmitted)
    ensures IsCoreDepositTable(ctrl, kept1, kept2)
    ensures UniqueKeys(ctrl, ControlKey)
    ensures forall i :: 0 <= i < |ctrl| ==> Cell(ctrl[i].items, CoreDepositColumn) == CoreDeposit(ctrl[i].items)
    ensures forall i :: 0 <= i < |ctrl| ==> HasControlKey(rcon1, ControlKey(ctrl[i]))
    ensures forall j :: 0 <= j < |rcon1| ==> HasControlKey(ctrl, ControlKey(rcon1[j]))
  {
    var k1 := KeepLatest(rcon1, ControlKey, ControlSubmitted);
    var k2 := KeepLatest(rcon2, ControlKey, ControlSubmitted);
    kept1, kept2 := k1, k2;
    var merged := MergeControl(LeftJoin(k1, k2, ControlKey, ControlKey));
    MergedControlKeys(k1, k2, merged);
    ctrl := WithCoreDeposit(merged);
    UniqueKeysPositional(ctrl, ControlKey, k1, ControlKey);
    ControlKeysCovered(rcon1, k1, ctrl);
    CoreDepositRows(k1, k2, merged, ctrl);
  }

  /** Row `i` of rcon_ctrl carries the core deposit of its key. */
  lemma CoreDepositRows(kept1: seq<ControlFiling>, kept2: seq<ControlFiling>, merged: seq<ControlFiling>, ctrl: seq<ControlFiling>)
    requires UniqueKeys(kept1, ControlKey)
    requires |merged| == |kept1| && forall i :: 0 <= i < |kept1| ==>
               MergedCells(merged[i].items, kept1[i].items, ControlItems(Lookup(kept2, ControlKey, ControlKey(kept1[i]))))
    requires forall i :: 0 <= i < |kept1| ==> merged[i].(items := kept1[i].items) == kept1[i]
    requires |ctrl| == |merged| && forall i :: 0 <= i < |merged| ==> Cell(ctrl[i].items, CoreDepositColumn) == CoreDeposit(merged[i].items)
    requires forall i :: 0 <= i < |merged| ==> ctrl[i].(items := merged[i].items) == merged[i]
    requires forall i, n :: 0 <= i < |merged| && n != CoreDepositColumn ==> Cell(ctrl[i].items, n) == Cell(merged[i].items, n)
    ensures IsCoreDepositTable(ctrl, kept1, kept2)
  {
    forall i | 0 <= i < |ctrl|
      ensures Cell(ctrl[i].items, CoreDepositColumn) == CoreDepositOf(kept1, kept2, ControlKey(kept1[i]))
      ensures merged[i].items == Merged(kept1[i].items, ControlItems(Lookup(kept2, ControlKey, ControlKey(kept1[i]))))
    {
      LookupOwnKey(kept1, ControlKey, i);
      MergedCellsDetermine(merged[i].items, kept1[i].items, ControlItems(Lookup(kept2, ControlKey, ControlKey(kept1[i]))));
    }
  }

  function BankDate(f: Filing): (int, Date)
  {
    (f.bank, f.date)
  }

  /** `df.merge(rcon_ctrl[['rssd9001', 'rssd9999', 'core_deposit']], on=['rssd9001', 'rssd9999'], how='left')`
      row by row: only core_deposit comes across, the matched row's. */
  function AttachCoreDeposit(pairs: seq<(Filing, Option<ControlFiling>)>): (r: seq<Filing>)
    ensures |r| == |pairs|
    ensures forall i :: 0 <= i < |pairs| ==> r[i].(items := pairs[i].0.items) == pairs[i].0
    ensures forall i, n :: 0 <= i < |pairs| && n != CoreDepositColumn ==> Cell(r[i].items, n) == Cell(pairs[i].0.items, n)
    ensures forall i :: 0 <= i < |pairs| ==>
              Cell(r[i].items, CoreDepositColumn)
              == if pairs[i].1.Some? then Cell(pairs[i].1.value.items, CoreDepositColumn) else None
  {
    seq(|pairs|, i requires 0 <= i < |pairs| =>
      var (l, m) := pairs[i];
      l.(items := SetCell(l.items, CoreDepositColumn, if m.Some? then Cell(m.value.items, CoreDepositColumn) else None)))
  }

  /** Lines 39-68: core_deposit joins the panel. The row count, the order
      and every other column stay; each row gets the core deposit of its
      bank-quarter, which is missing when the control extract lacks it. */
  method AttachControl(df: seq<Filing>, rcon1: seq<ControlFiling>, rcon2: seq<ControlFiling>)
    returns (withCore: seq<Filing>, ghost kept1: seq<ControlFiling>, ghost kept2: seq<ControlFiling>)
    requires SortedBy(df, LagOrder)
    ensures LatestOf(kept1, rcon1, ControlKey, ControlSubmitted) && LatestOf(kept2, rcon2, ControlKey, ControlSubmitted)
    ensures Keeps(withCore, df, {CoreDepositColumn}) && SortedBy(withCore, LagOrder)
    ensures forall i :: 0 <= i < |withCore| ==>
              Cell(withCore[i].items, CoreDepositColumn) == CoreDepositOf(kept1, kept2, BankDate(df[i]))
    ensures forall i :: 0 <= i < |withCore| && !HasControlKey(rcon1, BankDate(withCore[i])) ==>
              Cell(withCore[i].items, CoreDepositColumn).None?
  {
    var ctrl;
    ctrl, kept1, kept2 := CoreDepositTable(rcon1, rcon2);
    withCore := AttachCoreDeposit(LeftJoin(df, ctrl, BankDate, ControlKey));
    AttachedCoreDeposits(df, ctrl, kept1, kept2, withCore);
    SameRowsSorted(withCore, df);
    PreviousUnchanged2(withCore, df, CoreDepositColumn);
    forall i | 0 <= i < |withCore| && !HasControlKey(rcon1, BankDate(withCore[i]))
      ensures Cell(withCore[i].items, CoreDepositColumn).None?
    {
      assert BankDate(withCore[i]) == BankDate(df[i]);
      CoreDepositOutsideRcon1(rcon1, kept1, kept2, BankDate(df[i]));
    }
  }

  /** After the merge of lines 64-68 every row of the panel is unchanged but
      for core_deposit, which is the core deposit of its bank-quarter. */
  lemma AttachedCoreDeposits(df: seq<Filing>, ctrl: seq<ControlFiling>, kept1: seq<ControlFiling>, kept2: seq<ControlFiling>,
                             withCore: seq<Filing>)
    requires IsCoreDepositTable(ctrl, kept1, kept2) && UniqueKeys(ctrl, ControlKey) && UniqueKeys(kept1, ControlKey)
    requires withCore == AttachCoreDeposit(LeftJoin(df, ctrl, BankDate, ControlKey))
    ensures SameRowsButItems(withCore, df)
    ensures forall i, n :: 0 <= i < |withCore| && n != CoreDepositColumn ==> Cell(withCore[i].items, n) == Cell(df[i].items, n)
    ensures forall i :: 0 <= i < |withCore| ==>
              Cell(withCore[i].items, CoreDepositColumn) == CoreDepositOf(kept1, kept2, BankDate(df[i]))
  {
    LeftJoinUnique(df, ctrl, BankDate, ControlKey);
    forall i | 0 <= i < |withCore|
      ensures Cell(withCore[i].items, CoreDepositColumn) == CoreDepositOf(kept1, kept2, BankDate(df[i]))
    {
      CoreDepositFound(ctrl, kept1, kept2, BankDate(df[i]));
    }
  }

  /** A bank-quarter rcon1 never filed has no core deposit. */
  lemma CoreDepositOutsideRcon1(rcon1: seq<ControlFiling>, kept1: seq<ControlFiling>, kept2: seq<ControlFiling>, k: (int, Date))
    requires forall j :: 0 <= j < |kept1| ==> kept1[j] in rcon1
    requires !HasControlKey(rcon1, k)
    ensures CoreDepositOf(kept1, kept2, k).None?
  {
    forall j | 0 <= j < |kept1|
      ensures ControlKey(kept1[j]) != k
    {
      var a :| 0 <= a < |rcon1| && rcon1[a] == kept1[j];
      assert ControlKey(rcon1[a]) != k;
    }
  }

  /** Looking a bank-quarter up in rcon_ctrl finds its core deposit. */
  lemma CoreDepositFound(ctrl: seq<ControlFiling>, kept1: seq<ControlFiling>, kept2: seq<ControlFiling>, k: (int, Date))
    requires UniqueKeys(kept1, ControlKey)
    requires |ctrl| == |kept1| && forall i :: 0 <= i < |ctrl| ==> ctrl[i].(items := kept1[i].items) == kept1[i]
    requires forall i :: 0 <= i < |ctrl| ==>
               Cell(ctrl[i].items, CoreDepositColumn) == CoreDepositOf(kept1, kept2, ControlKey(kept1[i]))
    ensures (match Lookup(ctrl, ControlKey, k)
             case None => None
             case Some(c) => Cell(c.items, CoreDepositColumn)) == CoreDepositOf(kept1, kept2, k)
  {
    assert forall i :: 0 <= i < |ctrl| ==> ControlKey(ctrl[i]) == ControlKey(kept1[i]);
    LookupPositional(ctrl, ControlKey, kept1, ControlKey, k);
  }

  // ---------------------------------------------------------------------------
  // Averages, rates and changes
  // ---------------------------------------------------------------------------

  ghost predicate CoreChangeAt(df: seq<Filing>, i: nat)
    requires i < |df|
  {
    IsRelativeChange(Cell(df[i].items, DCoreDeposit), Cell(df[i].items, CoreDepositColumn), Previous(df, i, CoreDepositColumn))
  }

  /** Lines 70-98 on a table sorted for the lags: each derived column holds
      what its name says, computed against the bank's previous row; every
      other column is left alone. */
  method AddRateColumns(df0: seq<Filing>) returns (df: seq<Filing>)
    requires SortedBy(df0, LagOrder)
    ensures Keeps(df, df0, DerivedColumns) && SortedBy(df, LagOrder)
    ensures forall i :: 0 <= i < |df| ==>
              AveragesAt(df, i) && RatesAt(df, i) && RateChangesAt(df, i) && BalanceChangesAt(df, i) && CoreChangeAt(df, i)
  {
    var d1 := AddAverages(df0);
    var d2 := AddRates(d1);
    SameRowsSorted(d2, d1);
    var d3 := AddRateChanges(d2);
    var d4 := AddBalanceChanges(d3);
    df := WithRelativeChange(d4, DCoreDeposit, CoreDepositColumn);
    KeepsTransitive(df, d4, d3, {DCoreDeposit}, {DAverageDeposit, DAverageInterestBearing});
    var x1 := {DCoreDeposit} + {DAverageDeposit, DAverageInterestBearing};
    KeepsTransitive(df, d3, d2, x1, {DRateOnDeposit, DRateOnInterestBearing});
    var x2 := x1 + {DRateOnDeposit, DRateOnInterestBearing};
    KeepsTransitive(df, d2, d1, x2, {RateOnDeposit, RateOnInterestBearing});
    var x3 := x2 + {RateOnDeposit, RateOnInterestBearing};
    KeepsTransitive(df, d1, df0, x3, {AverageDeposit, AverageInterestBearing});
    assert x3 + {AverageDeposit, AverageInterestBearing} == DerivedColumns;
    AveragesKept(df, d1, x3);
    RatesKept(df, d2, x2);
    RateChangesKept(df, d3, x1);
    BalanceChangesKept(df, d4, {DCoreDeposit});
  }

  // ---------------------------------------------------------------------------
  // The whole script
  // ---------------------------------------------------------------------------

  /** What the written columns of row `i` say about one another. */
  ghost predicate PublishedAt(out: seq<Filing>, i: nat)
    requires i < |out|
  {
    var c := out[i].items;
    && IsChange(Cell(c, DRateOnDeposit), Cell(c, RateOnDeposit), Previous(out, i, RateOnDeposit))
    && IsChange(Cell(c, DRateOnInterestBearing), Cell(c, RateOnInterestBearing), Previous(out, i, RateOnInterestBearing))
    && IsRelativeChange(Cell(c, DCoreDeposit), Cell(c, CoreDepositColumn), Previous(out, i, CoreDepositColumn))
    && (Cell(c, RateOnDeposit).Some? ==> Cell(c, AverageDeposit).Some? && Cell(c, AverageDeposit).value != 0.0)
    && (Cell(c, RateOnInterestBearing).Some? ==>
          Cell(c, AverageInterestBearing).Some? && Cell(c, AverageInterestBearing).value != 0.0)
    && (PrevOfBank(out, i).None? ==>
          && Cell(c, AverageDeposit).None? && Cell(c, AverageInterestBearing).None?
          && Cell(c, DAverageDeposit).None? && Cell(c, DAverageInterestBearing).None?
          && Cell(c, DRateOnDeposit).None? && Cell(c, DRateOnInterestBearing).None?
          && Cell(c, DCoreDeposit).None?)
  }

  /** How the written row `i` comes from row `i` of the merged panel `df`:
      core_deposit is the bank-quarter's core deposit; the averages are
      those of its rcon2200 and rcon6636 and the bank's previous ones; the
      rates are its quarterly interest over those averages, annualised; and
      the balance changes are the growth of rcon2200 and rcon6636 from the
      bank's previous quarter. */
  ghost predicate PublishedFrom(out: seq<Filing>, df: seq<Filing>, kept1: seq<ControlFiling>, kept2: seq<ControlFiling>, i: nat)
    requires i < |out| && i < |df|
  {
    var c := out[i].items;
    var d := df[i].items;
    && Cell(c, CoreDepositColumn) == CoreDepositOf(kept1, kept2, BankDate(df[i]))
    && IsAverage(Cell(c, AverageDeposit), Cell(d, "rcon2200"), Previous(df, i, "rcon2200"))
    && IsAverage(Cell(c, AverageInterestBearing), Cell(d, "rcon6636"), Previous(df, i, "rcon6636"))
    && IsRate(Cell(c, RateOnDeposit), Cell(d, "interest_on_deposit"), Cell(c, AverageDeposit))
    && IsRate(Cell(c, RateOnInterestBearing), Cell(d, "interest_on_deposit"), Cell(c, AverageInterestBearing))
    && IsRelativeChange(Cell(c, DAverageDeposit), Cell(d, "rcon2200"), Previous(df, i, "rcon2200"))
    && IsRelativeChange(Cell(c, DAverageInterestBearing), Cell(d, "rcon6636"), Previous(df, i, "rcon6636"))
  }

  /** The script from the four extracts to the written table. `df` is the
      merged panel of CallReport.MergedFilings (with `latest`, `rconLatest`
      and `merged` its intermediate tables) and `kept1`, `kept2` the latest
      control filings; row `i` written is row `i` of `df`, with the ten
      value columns only, computed as PublishedFrom says. The rows are one
      per riad key, carry a latest submission and are in (rssd9001,
      rssd9999, rssd9050) order; the per-bank changes compare each row with
      the row above it of the same bank, and a bank's first row has no
      average and no change. */
  method DepositInterestRates(riad: seq<Filing>, rcon: seq<Filing>, rcon1: seq<ControlFiling>, rcon2: seq<ControlFiling>)
    returns (out: seq<Filing>, ghost latest: seq<Filing>, ghost rconLatest: seq<Filing>, ghost merged: seq<Filing>,
             ghost df: seq<Filing>, ghost kept1: seq<ControlFiling>, ghost kept2: seq<ControlFiling>)
    ensures MergedPanel(riad, rcon, latest, rconLatest, merged, df)
    ensures LatestOf(kept1, rcon1, ControlKey, ControlSubmitted) && LatestOf(kept2, rcon2, ControlKey, ControlSubmitted)
    ensures SameRowsButItems(out, df)
    ensures forall i :: 0 <= i < |out| ==> PublishedFrom(out, df, kept1, kept2, i)
    ensures UniqueKeys(out, FilingKey) && SortedBy(out, LagOrder)
    ensures forall i :: 0 <= i < |out| ==> FromFiling(out[i], riad)
    ensures forall r :: r in riad ==>
              exists i :: 0 <= i < |out| && FilingKey(out[i]) == FilingKey(r) && SubmittedNoLater(r.submitted, out[i].submitted)
    ensures forall i :: 0 <= i < |out| ==> out[i].items.Keys <= OutputColumns
    ensures forall i :: 0 <= i < |out| ==> PublishedAt(out, i)
  {
    var panel;
    panel, latest, rconLatest, merged := MergedFilings(riad, rcon);
    df := panel;
    var withCore;
    withCore, kept1, kept2 := AttachControl(panel, rcon1, rcon2);
    var rates := AddRateColumns(withCore);
    out := Select(rates, OutputColumns);
    SameRowsTransitive(rates, withCore, panel);
    SameRowsTransitive(out, rates, panel);
    SameRowsKeepOrigin(out, panel, riad);
    SameRowsSorted(out, rates);
    Published(rates, out);
    KeepsTransitive(rates, withCore, panel, DerivedColumns, {CoreDepositColumn});
    PublishedFromPanel(panel, withCore, rates, out, kept1, kept2);
  }

  /** The written columns, read back against the merged panel. */
  lemma PublishedFromPanel(df: seq<Filing>, withCore: seq<Filing>, rates: seq<Filing>, out: seq<Filing>,
                           kept1: seq<ControlFiling>, kept2: seq<ControlFiling>)
    requires Keeps(rates, df, DerivedColumns + {CoreDepositColumn}) && Keeps(rates, withCore, DerivedColumns)
    requires SameRowsButItems(withCore, df)
    requires forall i :: 0 <= i < |withCore| ==>
               Cell(withCore[i].items, CoreDepositColumn) == CoreDepositOf(kept1, kept2, BankDate(df[i]))
    requires forall i :: 0 <= i < |rates| ==> AveragesAt(rates, i) && RatesAt(rates, i) && BalanceChangesAt(rates, i)
    requires out == Select(rates, OutputColumns)
    ensures forall i :: 0 <= i < |out| ==> PublishedFrom(out, df, kept1, kept2, i)
  {
    forall i | 0 <= i < |out|
      ensures PublishedFrom(out, df, kept1, kept2, i)
    {
      var x := DerivedColumns + {CoreDepositColumn};
      assert "rcon2200" !in x && "rcon6636" !in x && "interest_on_deposit" !in x;
      KeptAt(rates, df, x, i, "rcon2200");
      KeptAt(rates, df, x, i, "rcon6636");
      KeptAt(rates, df, x, i, "interest_on_deposit");
      KeptAt(rates, withCore, DerivedColumns, i, CoreDepositColumn);
      PublishedRow(df, rates, out, kept1, kept2, i);
    }
  }

  /** One column outside `changed`, on one row: value and previous value stay. */
  lemma KeptAt(a: seq<Filing>, b: seq<Filing>, changed: set<string>, i: nat, n: string)
    requires Keeps(a, b, changed) && i < |a| && n !in changed
    ensures Cell(a[i].items, n) == Cell(b[i].items, n) && Previous(a, i, n) == Previous(b, i, n)
  {
  }

  lemma PublishedRow(df: seq<Filing>, rates: seq<Filing>, out: seq<Filing>, kept1: seq<ControlFiling>, kept2: seq<ControlFiling>, i: nat)
    requires i < |rates| && |df| == |rates| && out == Select(rates, OutputColumns)
    requires AveragesAt(rates, i) && RatesAt(rates, i) && BalanceChangesAt(rates, i)
    requires Cell(rates[i].items, CoreDepositColumn) == CoreDepositOf(kept1, kept2, BankDate(df[i]))
    requires Cell(rates[i].items, "rcon2200") == Cell(df[i].items, "rcon2200")
    requires Cell(rates[i].items, "rcon6636") == Cell(df[i].items, "rcon6636")
    requires Cell(rates[i].items, "interest_on_deposit") == Cell(df[i].items, "interest_on_deposit")
    requires Previous(rates, i, "rcon2200") == Previous(df, i, "rcon2200")
    requires Previous(rates, i, "rcon6636") == Previous(df, i, "rcon6636")
    ensures PublishedFrom(out, df, kept1, kept2, i)
  {
    assert out[i] == Restrict(rates[i], OutputColumns);
  }

  lemma Published(rates: seq<Filing>, out: seq<Filing>)
    requires out == Select(rates, OutputColumns)
    requires forall i :: 0 <= i < |rates| ==>
               AveragesAt(rates, i) && RatesAt(rates, i) && RateChangesAt(rates, i) && BalanceChangesAt(rates, i) && CoreChangeAt(rates, i)
    ensures forall i :: 0 <= i < |out| ==> PublishedAt(out, i)
  {
    PreviousUnchanged(out, rates, RateOnDeposit);
    PreviousUnchanged(out, rates, RateOnInterestBearing);
    PreviousUnchanged(out, rates, CoreDepositColumn);
    forall i | 0 <= i < |out|
      ensures PublishedAt(out, i)
    {
      assert AveragesAt(rates, i) && RatesAt(rates, i) && RateChangesAt(rates, i) && BalanceChangesAt(rates, i);
      assert CoreChangeAt(rates, i);
      assert PrevOfBank(out, i) == PrevOfBank(rates, i);
    }
  }
}
