/** The Call Report steps that programs/clean/deposit_interest_rate.py and
    programs/riad_clean.py share: filings keyed by bank (rssd9001), report
    date (rssd9999) and rssd9050; income items (Schedule RI) reported
    year-to-date and turned into quarterly flows; two-point average
    balances; annualised rates; and per-bank relative changes. */
module CallReport {
  import opened Tables
  import opened Sorting
  import opened Dedup
  import opened Joins

  /** One row of a Call Report extract: the key columns, the submission
      date (missing when it did not parse), and the line items by name. */
  datatype Filing = Filing(bank: int, date: Date, agent: int, submitted: Option<Date>, items: Cells)

  /** A row of the control extracts (rcon_control_1, rcon_control_2,
      riad_control): keyed by bank and report date only. */
  datatype ControlFiling = ControlFiling(bank: int, date: Date, submitted: Option<Date>, items: Cells)

  function ControlKey(f: ControlFiling): (int, Date)
  {
    (f.bank, f.date)
  }

  function ControlSubmitted(f: ControlFiling): Option<Date>
  {
    f.submitted
  }

  /** The line items of a matched control row, if any. */
  function ControlItems(m: Option<ControlFiling>): Option<Cells>
  {
    if m.Some? then Some(m.value.items) else None
  }

  /** `left.merge(right, on=['rssd9001', 'rssd9999'], how='left')` on control
      extracts: a matched right row's items join the left row's (the
      extracts share no item columns). */
  function MergeControl(pairs: seq<(ControlFiling, Option<ControlFiling>)>): (r: seq<ControlFiling>)
    ensures |r| == |pairs|
    ensures forall i :: 0 <= i < |pairs| ==> r[i].(items := pairs[i].0.items) == pairs[i].0
    ensures forall i :: 0 <= i < |pairs| ==> pairs[i].0.items.Keys <= r[i].items.Keys
    ensures forall i :: 0 <= i < |pairs| ==> MergedCells(r[i].items, pairs[i].0.items, ControlItems(pairs[i].1))
  {
    seq(|pairs|, i requires 0 <= i < |pairs| =>
      var (l, m) := pairs[i];
      l.(items := Merged(l.items, ControlItems(m))))
  }

  /** Some row of `rows` has the (rssd9001, rssd9999) key `k`. */
  ghost predicate HasControlKey(rows: seq<ControlFiling>, k: (int, Date))
  {
    exists j :: 0 <= j < |rows| && ControlKey(rows[j]) == k
  }

  /** Merging a de-duplicated extract onto another keeps the left rows, in
      order, each with its own items and those of the right row of its key
      merged in. */
  lemma MergedControlKeys(kept1: seq<ControlFiling>, kept2: seq<ControlFiling>, merged: seq<ControlFiling>)
    requires UniqueKeys(kept2, ControlKey)
    requires merged == MergeControl(LeftJoin(kept1, kept2, ControlKey, ControlKey))
    ensures |merged| == |kept1|
    ensures forall i :: 0 <= i < |kept1| ==> ControlKey(merged[i]) == ControlKey(kept1[i])
    ensures forall i :: 0 <= i < |kept1| ==> merged[i].(items := kept1[i].items) == kept1[i]
    ensures forall i :: 0 <= i < |kept1| ==> kept1[i].items.Keys <= merged[i].items.Keys
    ensures forall i :: 0 <= i < |kept1| ==>
              MergedCells(merged[i].items, kept1[i].items, ControlItems(Lookup(kept2, ControlKey, ControlKey(kept1[i]))))
  {
    LeftJoinUnique(kept1, kept2, ControlKey, ControlKey);
  }

  /** The keys of a table built row by row from the latest rcon1 filings are
      exactly rcon1's keys. */
  lemma ControlKeysCovered(rcon1: seq<ControlFiling>, kept1: seq<ControlFiling>, ctrl: seq<ControlFiling>)
    requires |ctrl| == |kept1| && forall i :: 0 <= i < |kept1| ==> ControlKey(ctrl[i]) == ControlKey(kept1[i])
    requires forall j :: 0 <= j < |kept1| ==> kept1[j] in rcon1
    requires forall i :: 0 <= i < |rcon1| ==> Superseded(rcon1[i], kept1, ControlKey, ControlSubmitted)
    ensures forall i :: 0 <= i < |ctrl| ==> HasControlKey(rcon1, ControlKey(ctrl[i]))
    ensures forall j :: 0 <= j < |rcon1| ==> HasControlKey(ctrl, ControlKey(rcon1[j]))
  {
    forall i | 0 <= i < |ctrl|
      ensures HasControlKey(rcon1, ControlKey(ctrl[i]))
    {
      assert kept1[i] in rcon1;
      var j :| 0 <= j < |rcon1| && rcon1[j] == kept1[i];
      assert ControlKey(rcon1[j]) == ControlKey(ctrl[i]);
    }
    forall j | 0 <= j < |rcon1|
      ensures HasControlKey(ctrl, ControlKey(rcon1[j]))
    {
      assert Superseded(rcon1[j], kept1, ControlKey, ControlSubmitted);
      var i :| 0 <= i < |kept1| && ControlKey(kept1[i]) == ControlKey(rcon1[j]);
      assert ControlKey(ctrl[i]) == ControlKey(kept1[i]);
    }
  }

  function FilingKey(f: Filing): (int, Date, int)
  {
    (f.bank, f.date, f.agent)
  }

  function Submitted(f: Filing): Option<Date>
  {
    f.submitted
  }

  /** The year-to-date items, in the order the scripts list them. */
  const YtdColumns: seq<string> := ["riad4508", "riad0093", "riadhk04", "riadhk03"]

  /** A year run: one bank, one rssd9050, one calendar year. */
  function YearRun(f: Filing): (int, int, int)
  {
    (f.bank, f.agent, f.date.year)
  }

  function YearRuns(rows: seq<Filing>): (keys: seq<(int, int, int)>)
    ensures |keys| == |rows| && forall i :: 0 <= i < |rows| ==> keys[i] == YearRun(rows[i])
  {
    seq(|rows|, i requires 0 <= i < |rows| => YearRun(rows[i]))
  }

  function Banks(rows: seq<Filing>): (keys: seq<int>)
    ensures |keys| == |rows| && forall i :: 0 <= i < |rows| ==> keys[i] == rows[i].bank
  {
    seq(|rows|, i requires 0 <= i < |rows| => rows[i].bank)
  }

  function Column(rows: seq<Filing>, name: string): (col: seq<Option<real>>)
    ensures |col| == |rows| && forall i :: 0 <= i < |rows| ==> col[i] == Cell(rows[i].items, name)
  {
    seq(|rows|, i requires 0 <= i < |rows| => Cell(rows[i].items, name))
  }

  /** `df[name] = col`: one column of every row is set, nothing else changes. */
  function AssignColumn(rows: seq<Filing>, name: string, col: seq<Option<real>>): (r: seq<Filing>)
    requires |col| == |rows|
    ensures |r| == |rows|
    ensures forall i :: 0 <= i < |rows| ==> r[i].(items := rows[i].items) == rows[i]
    ensures forall i :: 0 <= i < |rows| ==> Cell(r[i].items, name) == col[i]
    ensures forall i, other :: 0 <= i < |rows| && other != name ==>
              Cell(r[i].items, other) == Cell(rows[i].items, other)
  {
    seq(|rows|, i requires 0 <= i < |rows| => rows[i].(items := SetCell(rows[i].items, name, col[i])))
  }

  /** Row by row, the two tables agree on everything but the line items. */
  ghost predicate SameRowsButItems(a: seq<Filing>, b: seq<Filing>)
  {
    |a| == |b| && forall i :: 0 <= i < |a| ==> a[i].(items := b[i].items) == b[i]
  }

  /** Sort order before the YTD conversion: rssd9001, rssd9050, rssd9999. */
  function YtdOrder(f: Filing): seq<int>
  {
    [f.bank, f.agent] + DateKey(f.date)
  }

  /** Sort order before the lags: rssd9001, rssd9999, rssd9050. */
  function LagOrder(f: Filing): seq<int>
  {
    [f.bank] + DateKey(f.date) + [f.agent]
  }

  // ---------------------------------------------------------------------------
  // Year-to-date to quarterly
  // ---------------------------------------------------------------------------

  /** `ytd_diff = groupby(run)[col].diff()` and
      `col = ytd_diff.where(~ytd_diff.isna(), col)`: a row takes its
      difference from the previous row of its run where that difference
      exists, and keeps its reported value otherwise. */
  function QuarterlyColumn<K(==)>(runs: seq<K>, ytd: seq<Option<real>>): (q: seq<Option<real>>)
    requires |runs| == |ytd|
    ensures |q| == |ytd|
  {
    seq(|ytd|, i requires 0 <= i < |ytd| =>
      var d := GroupDiff(runs, ytd, i);
      if d.Some? then d else ytd[i])
  }

  lemma YtdColumnsDistinct()
    ensures forall a, b :: 0 <= a < b < |YtdColumns| ==> YtdColumns[a] != YtdColumns[b]
  {
    assert YtdColumns[0][4] == '4' && YtdColumns[1][4] == '0';
    assert YtdColumns[2][4] == 'h' && YtdColumns[3][4] == 'h';
    assert YtdColumns[2][7] == '4' && YtdColumns[3][7] == '3';
  }

  /** The loop over `ytd_cols`: each YTD column is replaced by its quarterly
      flows, computed over the year runs of the table as it stands; the keys
      and every other column are left as they were. */
  method ConvertYtd(rows: seq<Filing>) returns (out: seq<Filing>)
    ensures |out| == |rows|
    ensures forall i :: 0 <= i < |rows| ==> out[i].(items := rows[i].items) == rows[i]
    ensures forall i, c :: 0 <= i < |rows| && c in YtdColumns ==>
              Cell(out[i].items, c) == QuarterlyColumn(YearRuns(rows), Column(rows, c))[i]
    ensures forall i, c :: 0 <= i < |rows| && c !in YtdColumns ==>
              Cell(out[i].items, c) == Cell(rows[i].items, c)
  {
    YtdColumnsDistinct();
    var runs := YearRuns(rows);
    out := rows;
    for k := 0 to |YtdColumns|
      invariant |out| == |rows|
      invariant forall i :: 0 <= i < |rows| ==> out[i].(items := rows[i].items) == rows[i]
      invariant forall i, c :: 0 <= i < |rows| && c in YtdColumns[..k] ==>
                  Cell(out[i].items, c) == QuarterlyColumn(runs, Column(rows, c))[i]
      invariant forall i, c :: 0 <= i < |rows| && c !in YtdColumns[..k] ==>
                  Cell(out[i].items, c) == Cell(rows[i].items, c)
    {
      var col := YtdColumns[k];
      assert col !in YtdColumns[..k];
      assert YearRuns(out) == runs;
      assert Column(out, col) == Column(rows, col);
      out := AssignColumn(out, col, QuarterlyColumn(YearRuns(out), Column(out, col)));
      assert YtdColumns[..k + 1] == YtdColumns[..k] + [col];
    }
    assert YtdColumns[..|YtdColumns|] == YtdColumns;
  }

  /** Telescoping: over the first `n` rows, the quarterly flows of run `k`
      add up to the last YTD figure the run reported among them, provided
      the run reported every one of them. */
  lemma {:induction false} QuarterlySumsToYtd<K>(runs: seq<K>, ytd: seq<Option<real>>, k: K, n: nat)
    requires |runs| == |ytd| && n <= |ytd|
    requires forall i :: 0 <= i < n && runs[i] == k ==> ytd[i].Some?
    ensures GroupRunningSum(runs, QuarterlyColumn(runs, ytd), k, n)
            == (match LastIndexOf(runs, k, n) case None => 0.0 case Some(j) => ytd[j].value)
    decreases n
  {
    if n > 0 {
      QuarterlySumsToYtd(runs, ytd, k, n - 1);
      var q := QuarterlyColumn(runs, ytd);
      if runs[n - 1] == k {
        match LastIndexOf(runs, k, n - 1)
        case None =>
          assert GroupDiff(runs, ytd, n - 1) == None;
          assert q[n - 1] == ytd[n - 1];
        case Some(j) =>
          assert GroupDiff(runs, ytd, n - 1) == Some(ytd[n - 1].value - ytd[j].value);
          assert q[n - 1] == Some(ytd[n - 1].value - ytd[j].value);
      }
    }
  }

  /** The inverse of the conversion: cumulating a run's quarterly flows up to
      a row gives back the YTD figure reported on that row. */
  lemma CumulatedQuartersRecoverYtd<K>(runs: seq<K>, ytd: seq<Option<real>>, i: nat)
    requires |runs| == |ytd| && i < |ytd|
    requires forall m :: 0 <= m <= i && runs[m] == runs[i] ==> ytd[m].Some?
    ensures GroupRunningSum(runs, QuarterlyColumn(runs, ytd), runs[i], i + 1) == ytd[i].value
  {
    QuarterlySumsToYtd(runs, ytd, runs[i], i + 1);
  }

  /** The first row of a run keeps its YTD figure; a later row whose own and
      predecessor's figures are both present becomes their difference; any
      other row keeps its figure, missing or not. */
  lemma QuarterlyCases<K>(runs: seq<K>, ytd: seq<Option<real>>, i: nat)
    requires |runs| == |ytd| && i < |ytd|
    ensures LastIndexOf(runs, runs[i], i).None? ==> QuarterlyColumn(runs, ytd)[i] == ytd[i]
    ensures LastIndexOf(runs, runs[i], i).Some? ==>
              var j := LastIndexOf(runs, runs[i], i).value;
              QuarterlyColumn(runs, ytd)[i]
              == if ytd[i].Some? && ytd[j].Some? then Some(ytd[i].value - ytd[j].value) else ytd[i]
  {
  }

  /** In a table sorted for the conversion (rssd9001, rssd9050, rssd9999),
      each run occupies consecutive rows in date order, so a quarter is
      differenced against the row just above it when that row is of the same
      run, and is the first of its run otherwise. */
  lemma SortedRunLag(rows: seq<Filing>, i: nat)
    requires SortedBy(rows, YtdOrder) && i < |rows|
    ensures LastIndexOf(YearRuns(rows), YearRun(rows[i]), i)
            == if i > 0 && YearRun(rows[i - 1]) == YearRun(rows[i]) then Some(i - 1) else None
  {
    var runs := YearRuns(rows);
    if !(i > 0 && YearRun(rows[i - 1]) == YearRun(rows[i])) {
      forall m | 0 <= m < i
        ensures runs[m] != YearRun(rows[i])
      {
        if m < i - 1 {
          var a, b, c := YtdOrder(rows[m]), YtdOrder(rows[i - 1]), YtdOrder(rows[i]);
          LexPrefix(a, b, 3);
          LexPrefix(b, c, 3);
          LexSandwich(a[..3], b[..3], c[..3]);
          assert a[..3] == [rows[m].bank, rows[m].agent, rows[m].date.year];
          assert b[..3] == [rows[i - 1].bank, rows[i - 1].agent, rows[i - 1].date.year];
          assert c[..3] == [rows[i].bank, rows[i].agent, rows[i].date.year];
        }
        assert runs[m] == YearRun(rows[m]);
      }
    }
  }

  // ---------------------------------------------------------------------------
  // Line-item sums
  // ---------------------------------------------------------------------------

  /** interest_on_deposit = riad4508 + riad0093 + riadhk04 + riadhk03. */
  function InterestOnDeposit(items: Cells): Option<real>
  {
    AddAll([Cell(items, "riad4508"), Cell(items, "riad0093"), Cell(items, "riadhk04"), Cell(items, "riadhk03")])
  }

  /** core_deposit = rcon2210 + rcon0352 + rcon6810 + rconj473 + rcon6648. */
  function CoreDeposit(items: Cells): Option<real>
  {
    AddAll([Cell(items, "rcon2210"), Cell(items, "rcon0352"), Cell(items, "rcon6810"),
            Cell(items, "rconj473"), Cell(items, "rcon6648")])
  }

  /** Interest is present exactly when all four YTD items are, and is their sum. */
  lemma InterestOnDepositIsItemSum(items: Cells)
    ensures InterestOnDeposit(items).Some? <==>
              "riad4508" in items && "riad0093" in items && "riadhk04" in items && "riadhk03" in items
    ensures InterestOnDeposit(items).Some? ==>
              InterestOnDeposit(items).value
              == items["riad4508"] + items["riad0093"] + items["riadhk04"] + items["riadhk03"]
  {
    var xs := [Cell(items, "riad4508"), Cell(items, "riad0093"), Cell(items, "riadhk04"), Cell(items, "riadhk03")];
    if AllPresent(xs) {
      Sum4(Values(xs));
    } else {
      assert !xs[0].Some? || !xs[1].Some? || !xs[2].Some? || !xs[3].Some?;
    }
  }

  // ---------------------------------------------------------------------------
  // Per-bank lags
  // ---------------------------------------------------------------------------

  function Min(a: real, b: real): real { if a <= b then a else b }
  function Max(a: real, b: real): real { if a <= b then b else a }

  /** `(x + groupby(bank)[x].shift(1)) / 2`: the average of this quarter's
      balance and the bank's previous one. It is missing on a bank's first
      row and whenever either balance is missing, and otherwise lies between
      the two balances. */
  function TwoPointAverage(banks: seq<int>, xs: seq<Option<real>>, i: nat): (r: Option<real>)
    requires |banks| == |xs| && i < |xs|
    ensures r.Some? <==> xs[i].Some? && Lag(banks, xs, i).Some?
    ensures LastIndexOf(banks, banks[i], i).None? ==> r.None?
    ensures r.Some? ==> Min(xs[i].value, Lag(banks, xs, i).value) <= r.value <= Max(xs[i].value, Lag(banks, xs, i).value)
  {
    Div(Add(xs[i], Lag(banks, xs, i)), Some(2.0))
  }

  /** The two-point average is symmetric in the two balances: twice it is
      their sum. */
  lemma TwoPointAverageSum(banks: seq<int>, xs: seq<Option<real>>, i: nat)
    requires |banks| == |xs| && i < |xs|
    requires TwoPointAverage(banks, xs, i).Some?
    ensures 2.0 * TwoPointAverage(banks, xs, i).value == xs[i].value + Lag(banks, xs, i).value
  {
  }

  /** `interest / average * 4`: the quarterly flow as an annual rate. */
  function AnnualisedRate(interest: Option<real>, average: Option<real>): (r: Option<real>)
    ensures r.Some? <==> interest.Some? && average.Some? && average.value != 0.0
    ensures r.Some? ==> r.value * average.value == 4.0 * interest.value
  {
    Scale(Div(interest, average), 4.0)
  }

  /** `np.where(prev != 0, diff / prev, nan)` with `prev` the bank's previous
      value: present exactly when this value and a nonzero previous value
      are, and then the growth factor that takes the previous value to this
      one. */
  function RelativeChange(banks: seq<int>, xs: seq<Option<real>>, i: nat): (r: Option<real>)
    requires |banks| == |xs| && i < |xs|
    ensures r.Some? <==> xs[i].Some? && Lag(banks, xs, i).Some? && Lag(banks, xs, i).value != 0.0
    ensures r.Some? ==> Lag(banks, xs, i).value * (1.0 + r.value) == xs[i].value
  {
    var prev := Lag(banks, xs, i);
    if prev.Some? && prev.value != 0.0 then Div(GroupDiff(banks, xs, i), prev) else None
  }

  /** In a table sorted for the lags (rssd9001, rssd9999, rssd9050), a
      bank's rows are consecutive, so the lag of a row reads the row just
      above it when that row is of the same bank, and nothing otherwise. */
  lemma SortedBankLag(rows: seq<Filing>, i: nat)
    requires SortedBy(rows, LagOrder) && i < |rows|
    ensures LastIndexOf(Banks(rows), rows[i].bank, i)
            == if i > 0 && rows[i - 1].bank == rows[i].bank then Some(i - 1) else None
  {
    var banks := Banks(rows);
    if !(i > 0 && rows[i - 1].bank == rows[i].bank) {
      forall m | 0 <= m < i
        ensures banks[m] != rows[i].bank
      {
        assert LagOrder(rows[m])[0] == rows[m].bank;
        assert LagOrder(rows[i - 1])[0] == rows[i - 1].bank;
        assert LagOrder(rows[i])[0] == rows[i].bank;
      }
    }
  }

  // ---------------------------------------------------------------------------
  // Whole columns, as the scripts assign them
  // ---------------------------------------------------------------------------

  function InterestColumn(rows: seq<Filing>): seq<Option<real>>
  {
    seq(|rows|, i requires 0 <= i < |rows| => InterestOnDeposit(rows[i].items))
  }

  function AverageColumn(rows: seq<Filing>, name: string): seq<Option<real>>
  {
    seq(|rows|, i requires 0 <= i < |rows| => TwoPointAverage(Banks(rows), Column(rows, name), i))
  }

  function RateColumn(rows: seq<Filing>, interest: string, average: string): seq<Option<real>>
  {
    seq(|rows|, i requires 0 <= i < |rows| => AnnualisedRate(Cell(rows[i].items, interest), Cell(rows[i].items, average)))
  }

  function DiffColumn(rows: seq<Filing>, name: string): seq<Option<real>>
  {
    seq(|rows|, i requires 0 <= i < |rows| => GroupDiff(Banks(rows), Column(rows, name), i))
  }

  function RelativeChangeColumn(rows: seq<Filing>, name: string): seq<Option<real>>
  {
    seq(|rows|, i requires 0 <= i < |rows| => RelativeChange(Banks(rows), Column(rows, name), i))
  }

  /** The row just above `i`, when it is of the same bank. */
  function PrevOfBank(rows: seq<Filing>, i: nat): (r: Option<nat>)
    requires i < |rows|
    ensures r.Some? ==> r.value == i - 1
  {
    if i > 0 && rows[i - 1].bank == rows[i].bank then Some(i - 1) else None
  }

  /** The value of column `name` on the row just above `i`, when that row is of the same bank. */
  function Previous(rows: seq<Filing>, i: nat, name: string): Option<real>
    requires i < |rows|
  {
    match PrevOfBank(rows, i)
    case None => None
    case Some(j) => Cell(rows[j].items, name)
  }

  /** In a table sorted for the lags, every per-bank shift reads the row above. */
  lemma SortedShift(rows: seq<Filing>, name: string)
    requires SortedBy(rows, LagOrder)
    ensures forall i :: 0 <= i < |rows| ==> Lag(Banks(rows), Column(rows, name), i) == Previous(rows, i, name)
  {
    forall i | 0 <= i < |rows|
      ensures Lag(Banks(rows), Column(rows, name), i) == Previous(rows, i, name)
    {
      SortedBankLag(rows, i);
    }
  }

  /** The lag order only looks at the key columns. */
  lemma SameRowsSorted(a: seq<Filing>, b: seq<Filing>)
    requires SameRowsButItems(a, b) && SortedBy(b, LagOrder)
    ensures SortedBy(a, LagOrder)
  {
    assert forall i :: 0 <= i < |a| ==> LagOrder(a[i]) == LagOrder(b[i]);
  }

  /** Where a column and the banks agree, so do the values read from the row above. */
  lemma PreviousUnchanged(a: seq<Filing>, b: seq<Filing>, name: string)
    requires SameRowsButItems(a, b)
    requires forall i :: 0 <= i < |a| ==> Cell(a[i].items, name) == Cell(b[i].items, name)
    ensures forall i :: 0 <= i < |a| ==> Previous(a, i, name) == Previous(b, i, name)
  {
    forall i | 0 <= i < |a|
      ensures Previous(a, i, name) == Previous(b, i, name)
    {
      assert a[i].bank == b[i].bank;
      if i > 0 {
        assert a[i - 1].bank == b[i - 1].bank;
      }
    }
  }

  /** Where only column `name` changed, every other column reads the same values from the row above. */
  lemma PreviousUnchanged2(a: seq<Filing>, b: seq<Filing>, name: string)
    requires SameRowsButItems(a, b)
    requires forall i, n :: 0 <= i < |a| && n != name ==> Cell(a[i].items, n) == Cell(b[i].items, n)
    ensures Keeps(a, b, {name})
  {
    forall i, n | 0 <= i < |a| && n != name
      ensures Previous(a, i, n) == Previous(b, i, n)
    {
      assert a[i].bank == b[i].bank;
      if i > 0 {
        assert a[i - 1].bank == b[i - 1].bank;
      }
    }
  }

  /** Setting one column leaves what every other column reads from the row above. */
  lemma AssignPrevious(rows: seq<Filing>, name: string, col: seq<Option<real>>)
    requires |col| == |rows|
    ensures forall i, n :: 0 <= i < |rows| && n != name ==>
              Previous(AssignColumn(rows, name, col), i, n) == Previous(rows, i, n)
  {
    var r := AssignColumn(rows, name, col);
    forall i, n | 0 <= i < |rows| && n != name
      ensures Previous(r, i, n) == Previous(rows, i, n)
    {
      assert r[i].bank == rows[i].bank;
      if i > 0 {
        assert r[i - 1].bank == rows[i - 1].bank;
      }
    }
  }

  /** Rewriting line items keeps where each row came from and which filings survive. */
  lemma SameRowsKeepOrigin(a: seq<Filing>, b: seq<Filing>, riad: seq<Filing>)
    requires SameRowsButItems(a, b)
    requires forall i :: 0 <= i < |b| ==> FromFiling(b[i], riad)
    requires forall r :: r in riad ==>
               exists i :: 0 <= i < |b| && FilingKey(b[i]) == FilingKey(r) && SubmittedNoLater(r.submitted, b[i].submitted)
    requires UniqueKeys(b, FilingKey)
    ensures forall i :: 0 <= i < |a| ==> FromFiling(a[i], riad)
    ensures forall r :: r in riad ==>
              exists i :: 0 <= i < |a| && FilingKey(a[i]) == FilingKey(r) && SubmittedNoLater(r.submitted, a[i].submitted)
    ensures UniqueKeys(a, FilingKey)
  {
    forall i | 0 <= i < |a|
      ensures FromFiling(a[i], riad)
    {
      assert FromFiling(b[i], riad);
      var r :| r in riad && r.(items := b[i].items) == b[i];
      assert a[i].(items := b[i].items) == b[i];
      assert r.(items := a[i].items) == a[i];
    }
    forall r | r in riad
      ensures exists i :: 0 <= i < |a| && FilingKey(a[i]) == FilingKey(r) && SubmittedNoLater(r.submitted, a[i].submitted)
    {
      var i :| 0 <= i < |b| && FilingKey(b[i]) == FilingKey(r) && SubmittedNoLater(r.submitted, b[i].submitted);
      assert FilingKey(a[i]) == FilingKey(b[i]) && a[i].submitted == b[i].submitted;
    }
    SameRowsUnique(a, b);
  }

  /** One row of `df[keys + names]`. */
  function Restrict(f: Filing, names: set<string>): (r: Filing)
    ensures r.(items := f.items) == f && r.items.Keys <= names
    ensures forall n :: n in names ==> Cell(r.items, n) == Cell(f.items, n)
  {
    f.(items := map n | n in f.items && n in names :: f.items[n])
  }

  /** `df[keys + names]`: the key columns and the named columns. The
      submission date, which the scripts drop, stays in the row type. */
  function Select(rows: seq<Filing>, names: set<string>): (out: seq<Filing>)
    ensures SameRowsButItems(out, rows)
    ensures forall i :: 0 <= i < |rows| ==> out[i] == Restrict(rows[i], names)
    ensures forall i :: 0 <= i < |rows| ==> out[i].items.Keys <= names
    ensures forall i, n :: 0 <= i < |rows| && n in names ==> Cell(out[i].items, n) == Cell(rows[i].items, n)
  {
    seq(|rows|, i requires 0 <= i < |rows| => Restrict(rows[i], names))
  }

  /** `a` is `b` with only the columns named in `changed` rewritten. */
  ghost predicate Keeps(a: seq<Filing>, b: seq<Filing>, changed: set<string>)
  {
    && SameRowsButItems(a, b)
    && (forall i, n :: 0 <= i < |a| && n !in changed ==> Cell(a[i].items, n) == Cell(b[i].items, n))
    && (forall i, n :: 0 <= i < |a| && n !in changed ==> Previous(a, i, n) == Previous(b, i, n))
  }

  lemma KeepsTransitive(a: seq<Filing>, b: seq<Filing>, c: seq<Filing>, x: set<string>, y: set<string>)
    requires Keeps(a, b, x) && Keeps(b, c, y)
    ensures Keeps(a, c, x + y)
  {
    SameRowsTransitive(a, b, c);
  }

  // ---------------------------------------------------------------------------
  // What a derived column means, row by row
  // ---------------------------------------------------------------------------

  /** `avg` is the mean of the balance `x` and the previous balance `p`. */
  predicate IsAverage(avg: Option<real>, x: Option<real>, p: Option<real>)
  {
    && (avg.Some? <==> x.Some? && p.Some?)
    && (avg.Some? ==> 2.0 * avg.value == x.value + p.value)
  }

  /** `rate` is the annual rate that `interest` earned in a quarter on `avg`. */
  predicate IsRate(rate: Option<real>, interest: Option<real>, avg: Option<real>)
  {
    && (rate.Some? <==> interest.Some? && avg.Some? && avg.value != 0.0)
    && (rate.Some? ==> rate.value * avg.value == 4.0 * interest.value)
  }

  /** `d` is what was added to the previous value `p` to reach `x`. */
  predicate IsChange(d: Option<real>, x: Option<real>, p: Option<real>)
  {
    && (d.Some? <==> x.Some? && p.Some?)
    && (d.Some? ==> p.value + d.value == x.value)
  }

  /** `g` is the growth from a nonzero previous value `p` to `x`. */
  predicate IsRelativeChange(g: Option<real>, x: Option<real>, p: Option<real>)
  {
    && (g.Some? <==> x.Some? && p.Some? && p.value != 0.0)
    && (g.Some? ==> p.value * (1.0 + g.value) == x.value)
  }

  /** Each of the four determines its value: two values that satisfy one of
      them for the same inputs are equal. */
  lemma DerivedColumnsDetermined(a: Option<real>, b: Option<real>, x: Option<real>, y: Option<real>)
    ensures IsAverage(a, x, y) && IsAverage(b, x, y) ==> a == b
    ensures IsRate(a, x, y) && IsRate(b, x, y) ==> a == b
    ensures IsChange(a, x, y) && IsChange(b, x, y) ==> a == b
    ensures IsRelativeChange(a, x, y) && IsRelativeChange(b, x, y) ==> a == b
  {
    if IsRate(a, x, y) && IsRate(b, x, y) && a.Some? {
      CancelFactor(y.value, a.value, b.value);
    }
    if IsRelativeChange(a, x, y) && IsRelativeChange(b, x, y) && a.Some? {
      CancelFactor(y.value, 1.0 + a.value, 1.0 + b.value);
    }
  }

  lemma CancelFactor(p: real, u: real, v: real)
    requires p != 0.0 && p * u == p * v
    ensures u == v
  {
    assert p * (u - v) == 0.0;
  }

  /** `df[name] = (df[source] + df.groupby('rssd9001')[source].shift(1)) / 2`. */
  function WithAverage(rows: seq<Filing>, name: string, source: string): (r: seq<Filing>)
    requires SortedBy(rows, LagOrder) && name != source
    ensures Keeps(r, rows, {name}) && SortedBy(r, LagOrder)
    ensures forall i :: 0 <= i < |r| ==> IsAverage(Cell(r[i].items, name), Cell(r[i].items, source), Previous(r, i, source))
  {
    SortedShift(rows, source);
    AssignPrevious(rows, name, AverageColumn(rows, source));
    var r := AssignColumn(rows, name, AverageColumn(rows, source));
    SameRowsSorted(r, rows);
    PreviousUnchanged(r, rows, source);
    r
  }

  /** `df[name] = df[interest] / df[average] * 4`. */
  function WithRate(rows: seq<Filing>, name: string, interest: string, average: string): (r: seq<Filing>)
    requires name != interest && name != average
    ensures Keeps(r, rows, {name})
    ensures forall i :: 0 <= i < |r| ==> IsRate(Cell(r[i].items, name), Cell(r[i].items, interest), Cell(r[i].items, average))
  {
    AssignPrevious(rows, name, RateColumn(rows, interest, average));
    AssignColumn(rows, name, RateColumn(rows, interest, average))
  }

  /** `df[name] = df.groupby('rssd9001')[source].diff()`. */
  function WithDiff(rows: seq<Filing>, name: string, source: string): (r: seq<Filing>)
    requires SortedBy(rows, LagOrder) && name != source
    ensures Keeps(r, rows, {name}) && SortedBy(r, LagOrder)
    ensures forall i :: 0 <= i < |r| ==> IsChange(Cell(r[i].items, name), Cell(r[i].items, source), Previous(r, i, source))
  {
    SortedShift(rows, source);
    AssignPrevious(rows, name, DiffColumn(rows, source));
    var r := AssignColumn(rows, name, DiffColumn(rows, source));
    SameRowsSorted(r, rows);
    PreviousUnchanged(r, rows, source);
    r
  }

  lemma RelativeChangeColumnMeaning(rows: seq<Filing>, source: string)
    requires SortedBy(rows, LagOrder)
    ensures forall i :: 0 <= i < |rows| ==>
              IsRelativeChange(RelativeChangeColumn(rows, source)[i], Cell(rows[i].items, source), Previous(rows, i, source))
  {
    forall i | 0 <= i < |rows|
      ensures IsRelativeChange(RelativeChangeColumn(rows, source)[i], Cell(rows[i].items, source), Previous(rows, i, source))
    {
      SortedBankLag(rows, i);
      var g := RelativeChange(Banks(rows), Column(rows, source), i);
      assert RelativeChangeColumn(rows, source)[i] == g;
      assert Lag(Banks(rows), Column(rows, source), i) == Previous(rows, i, source);
    }
  }

  /** `df[name] = diff`, then `df[name] = np.where(prev != 0, df[name] / prev, np.nan)`
      with `prev = df.groupby('rssd9001')[source].shift(1)`. */
  function WithRelativeChange(rows: seq<Filing>, name: string, source: string): (r: seq<Filing>)
    requires SortedBy(rows, LagOrder) && name != source
    ensures Keeps(r, rows, {name}) && SortedBy(r, LagOrder)
    ensures forall i :: 0 <= i < |r| ==> IsRelativeChange(Cell(r[i].items, name), Cell(r[i].items, source), Previous(r, i, source))
  {
    RelativeChangeColumnMeaning(rows, source);
    AssignPrevious(rows, name, RelativeChangeColumn(rows, source));
    var r := AssignColumn(rows, name, RelativeChangeColumn(rows, source));
    SameRowsSorted(r, rows);
    PreviousUnchanged(r, rows, source);
    r
  }

  // ---------------------------------------------------------------------------
  // The derived columns both scripts write
  // ---------------------------------------------------------------------------

  const AverageDeposit := "average_deposit"
  const AverageInterestBearing := "average_interest_bearing_deposit"
  const RateOnDeposit := "interest_rate_on_deposit"
  const RateOnInterestBearing := "interest_rate_on_interest_bearing_deposit"
  const DRateOnDeposit := "d_interest_rate_on_deposit"
  const DRateOnInterestBearing := "d_interest_rate_on_interest_bearing_deposit"
  /** Written to `d_rcon2200` and then renamed: the relative change of the rcon2200 level. */
  const DAverageDeposit := "d_average_deposit"
  /** Written to `d_rcon6636` and then renamed: the relative change of the rcon6636 level. */
  const DAverageInterestBearing := "d_average_interest_bearing_deposit"

  ghost predicate AveragesAt(df: seq<Filing>, i: nat)
    requires i < |df|
  {
    && IsAverage(Cell(df[i].items, AverageDeposit), Cell(df[i].items, "rcon2200"), Previous(df, i, "rcon2200"))
    && IsAverage(Cell(df[i].items, AverageInterestBearing), Cell(df[i].items, "rcon6636"), Previous(df, i, "rcon6636"))
  }

  ghost predicate RatesAt(df: seq<Filing>, i: nat)
    requires i < |df|
  {
    && IsRate(Cell(df[i].items, RateOnDeposit), Cell(df[i].items, "interest_on_deposit"), Cell(df[i].items, AverageDeposit))
    && IsRate(Cell(df[i].items, RateOnInterestBearing), Cell(df[i].items, "interest_on_deposit"),
              Cell(df[i].items, AverageInterestBearing))
  }

  ghost predicate RateChangesAt(df: seq<Filing>, i: nat)
    requires i < |df|
  {
    && IsChange(Cell(df[i].items, DRateOnDeposit), Cell(df[i].items, RateOnDeposit), Previous(df, i, RateOnDeposit))
    && IsChange(Cell(df[i].items, DRateOnInterestBearing), Cell(df[i].items, RateOnInterestBearing),
                Previous(df, i, RateOnInterestBearing))
  }

  ghost predicate BalanceChangesAt(df: seq<Filing>, i: nat)
    requires i < |df|
  {
    && IsRelativeChange(Cell(df[i].items, DAverageDeposit), Cell(df[i].items, "rcon2200"), Previous(df, i, "rcon2200"))
    && IsRelativeChange(Cell(df[i].items, DAverageInterestBearing), Cell(df[i].items, "rcon6636"),
                        Previous(df, i, "rcon6636"))
  }

  /** `average_deposit` and `average_interest_bearing_deposit` (lines 71 and
      74 of deposit_interest_rate.py, 41 and 44 of riad_clean.py). */
  method AddAverages(df0: seq<Filing>) returns (df: seq<Filing>)
    requires SortedBy(df0, LagOrder)
    ensures Keeps(df, df0, {AverageDeposit, AverageInterestBearing}) && SortedBy(df, LagOrder)
    ensures forall i :: 0 <= i < |df| ==> AveragesAt(df, i)
  {
    var d1 := WithAverage(df0, AverageDeposit, "rcon2200");
    df := WithAverage(d1, AverageInterestBearing, "rcon6636");
    KeepsTransitive(df, d1, df0, {AverageInterestBearing}, {AverageDeposit});
  }

  /** The two annualised rates (lines 76-77 of deposit_interest_rate.py,
      48-49 of riad_clean.py). */
  method AddRates(df0: seq<Filing>) returns (df: seq<Filing>)
    ensures Keeps(df, df0, {RateOnDeposit, RateOnInterestBearing})
    ensures forall i :: 0 <= i < |df| ==> RatesAt(df, i)
  {
    var d1 := WithRate(df0, RateOnDeposit, "interest_on_deposit", AverageDeposit);
    df := WithRate(d1, RateOnInterestBearing, "interest_on_deposit", AverageInterestBearing);
    KeepsTransitive(df, d1, df0, {RateOnInterestBearing}, {RateOnDeposit});
  }

  /** The per-bank changes of the two rates (lines 80-81 of
      deposit_interest_rate.py, 52-53 of riad_clean.py). */
  method AddRateChanges(df0: seq<Filing>) returns (df: seq<Filing>)
    requires SortedBy(df0, LagOrder)
    ensures Keeps(df, df0, {DRateOnDeposit, DRateOnInterestBearing}) && SortedBy(df, LagOrder)
    ensures forall i :: 0 <= i < |df| ==> RateChangesAt(df, i)
  {
    var d1 := WithDiff(df0, DRateOnDeposit, RateOnDeposit);
    df := WithDiff(d1, DRateOnInterestBearing, RateOnInterestBearing);
    KeepsTransitive(df, d1, df0, {DRateOnInterestBearing}, {DRateOnDeposit});
  }

  /** The relative changes of the two balance levels, written to
      `d_rcon2200` and `d_rcon6636` and renamed (lines 82-83, 87-98 of
      deposit_interest_rate.py, 54-67 of riad_clean.py). */
  method AddBalanceChanges(df0: seq<Filing>) returns (df: seq<Filing>)
    requires SortedBy(df0, LagOrder)
    ensures Keeps(df, df0, {DAverageDeposit, DAverageInterestBearing}) && SortedBy(df, LagOrder)
    ensures forall i :: 0 <= i < |df| ==> BalanceChangesAt(df, i)
  {
    var d1 := WithRelativeChange(df0, DAverageDeposit, "rcon2200");
    df := WithRelativeChange(d1, DAverageInterestBearing, "rcon6636");
    KeepsTransitive(df, d1, df0, {DAverageInterestBearing}, {DAverageDeposit});
  }

  lemma AveragesKept(a: seq<Filing>, b: seq<Filing>, changed: set<string>)
    requires Keeps(a, b, changed)
    requires changed !! {AverageDeposit, AverageInterestBearing, "rcon2200", "rcon6636"}
    ensures forall i :: 0 <= i < |b| && AveragesAt(b, i) ==> AveragesAt(a, i)
  {
  }

  lemma RatesKept(a: seq<Filing>, b: seq<Filing>, changed: set<string>)
    requires Keeps(a, b, changed)
    requires changed !! {RateOnDeposit, RateOnInterestBearing, "interest_on_deposit", AverageDeposit, AverageInterestBearing}
    ensures forall i :: 0 <= i < |b| && RatesAt(b, i) ==> RatesAt(a, i)
  {
  }

  lemma BalanceChangesKept(a: seq<Filing>, b: seq<Filing>, changed: set<string>)
    requires Keeps(a, b, changed)
    requires changed !! {DAverageDeposit, DAverageInterestBearing, "rcon2200", "rcon6636"}
    ensures forall i :: 0 <= i < |b| && BalanceChangesAt(b, i) ==> BalanceChangesAt(a, i)
  {
  }

  lemma RateChangesKept(a: seq<Filing>, b: seq<Filing>, changed: set<string>)
    requires Keeps(a, b, changed)
    requires changed !! {DRateOnDeposit, DRateOnInterestBearing, RateOnDeposit, RateOnInterestBearing}
    ensures forall i :: 0 <= i < |b| && RateChangesAt(b, i) ==> RateChangesAt(a, i)
  {
  }

  // ---------------------------------------------------------------------------
  // The shared head of both scripts
  // ---------------------------------------------------------------------------

  /** The line items of a matched filing, if any. */
  function FilingItems(m: Option<Filing>): Option<Cells>
  {
    if m.Some? then Some(m.value.items) else None
  }

  /** `riad.merge(rcon, on=keys, how='left')`: a matched rcon row's items join the riad row's. */
  function MergeItems(pairs: seq<(Filing, Option<Filing>)>): (r: seq<Filing>)
    ensures |r| == |pairs|
    ensures forall i :: 0 <= i < |pairs| ==> r[i].(items := pairs[i].0.items) == pairs[i].0
    ensures forall i :: 0 <= i < |pairs| ==> MergedCells(r[i].items, pairs[i].0.items, FilingItems(pairs[i].1))
  {
    seq(|pairs|, i requires 0 <= i < |pairs| =>
      var (l, m) := pairs[i];
      l.(items := Merged(l.items, FilingItems(m))))
  }

  lemma SameRowsTransitive(a: seq<Filing>, b: seq<Filing>, c: seq<Filing>)
    requires SameRowsButItems(a, b) && SameRowsButItems(b, c)
    ensures SameRowsButItems(a, c)
  {
    forall i | 0 <= i < |a|
      ensures a[i].(items := c[i].items) == c[i]
    {
      assert b[i].(items := c[i].items) == c[i];
    }
  }

  lemma SameRowsUnique(a: seq<Filing>, b: seq<Filing>)
    requires SameRowsButItems(a, b) && UniqueKeys(b, FilingKey)
    ensures UniqueKeys(a, FilingKey)
  {
    forall i, j | 0 <= i < j < |a|
      ensures FilingKey(a[i]) != FilingKey(a[j])
    {
      assert FilingKey(a[i]) == FilingKey(b[i]);
      assert FilingKey(a[j]) == FilingKey(b[j]);
    }
  }

  /** `f` is one of `rows` with its line items rewritten. */
  ghost predicate FromFiling(f: Filing, rows: seq<Filing>)
  {
    exists r :: r in rows && r.(items := f.items) == f
  }

  /** The rows of `df`, a reordering of `merged`, come from the kept filings. */
  lemma RowsFromKept(riad: seq<Filing>, kept: seq<Filing>, sorted: seq<Filing>, merged: seq<Filing>, df: seq<Filing>)
    requires forall j :: 0 <= j < |kept| ==> kept[j] in riad
    requires multiset(sorted) == multiset(kept)
    requires SameRowsButItems(merged, sorted)
    requires multiset(df) == multiset(merged)
    ensures forall i :: 0 <= i < |df| ==> FromFiling(df[i], riad)
  {
    forall i | 0 <= i < |df|
      ensures FromFiling(df[i], riad)
    {
      assert df[i] in multiset(merged);
      var k :| 0 <= k < |merged| && merged[k] == df[i];
      assert sorted[k] in multiset(kept);
      var j :| 0 <= j < |kept| && kept[j] == sorted[k];
      assert sorted[k].(items := df[i].items) == df[i];
    }
  }

  /** Every riad filing is matched in `df` by a row of its key submitted no earlier. */
  lemma LatestReachesOutput(riad: seq<Filing>, kept: seq<Filing>, sorted: seq<Filing>, merged: seq<Filing>, df: seq<Filing>)
    requires forall i :: 0 <= i < |riad| ==> Superseded(riad[i], kept, FilingKey, Submitted)
    requires multiset(sorted) == multiset(kept)
    requires SameRowsButItems(merged, sorted)
    requires multiset(df) == multiset(merged)
    ensures forall r :: r in riad ==>
              exists i :: 0 <= i < |df| && FilingKey(df[i]) == FilingKey(r) && SubmittedNoLater(r.submitted, df[i].submitted)
  {
    forall r | r in riad
      ensures exists i :: 0 <= i < |df| && FilingKey(df[i]) == FilingKey(r) && SubmittedNoLater(r.submitted, df[i].submitted)
    {
      var n :| 0 <= n < |riad| && riad[n] == r;
      assert Superseded(riad[n], kept, FilingKey, Submitted);
      var j :| 0 <= j < |kept| && FilingKey(kept[j]) == FilingKey(r) && SubmittedNoLater(r.submitted, kept[j].submitted);
      assert kept[j] in multiset(sorted);
      var k :| 0 <= k < |sorted| && sorted[k] == kept[j];
      assert merged[k].(items := sorted[k].items) == sorted[k];
      assert merged[k] in multiset(df);
      var i :| 0 <= i < |df| && df[i] == merged[k];
      assert FilingKey(df[i]) == FilingKey(r);
    }
  }

  /** The quarterly flow of the YTD item `c` on row `k` of `rows`. */
  function Flow(rows: seq<Filing>, k: nat, c: string): Option<real>
    requires k < |rows|
  {
    QuarterlyColumn(YearRuns(rows), Column(rows, c))[k]
  }

  /** Column `n` of row `k` of the latest riad filings, sorted for the
      conversion, once lines 13-21 have run: a YTD item is its quarterly
      flow, interest_on_deposit the sum of the four flows, and any other
      column is as filed. */
  function QuarterlyCell(rows: seq<Filing>, k: nat, n: string): Option<real>
    requires k < |rows|
  {
    if n in YtdColumns then Flow(rows, k, n)
    else if n == "interest_on_deposit" then
      AddAll([Flow(rows, k, "riad4508"), Flow(rows, k, "riad0093"), Flow(rows, k, "riadhk04"), Flow(rows, k, "riadhk03")])
    else Cell(rows[k].items, n)
  }

  /** `m` is row `k` of `latest` after the conversion, with the items of the
      rcon filing of its key in `rconLatest` merged in. */
  ghost predicate IsMergedFiling(m: Filing, latest: seq<Filing>, k: nat, rconLatest: seq<Filing>)
    requires k < |latest|
  {
    && m.(items := latest[k].items) == latest[k]
    && MergedCells(m.items, QuarterlyRow(latest, k), FilingItems(Lookup(rconLatest, FilingKey, FilingKey(latest[k]))))
  }

  /** The items of row `k` after the conversion, as QuarterlyCell describes them. */
  ghost function QuarterlyRow(rows: seq<Filing>, k: nat): (r: Cells)
    requires k < |rows|
    ensures forall n :: Cell(r, n) == QuarterlyCell(rows, k, n)
  {
    map n | n in (rows[k].items.Keys + {"interest_on_deposit"} + set y | y in YtdColumns) && QuarterlyCell(rows, k, n).Some?
      :: QuarterlyCell(rows, k, n).value
  }

  /** What lines 10-38 produce: `latest` holds the latest riad filing of
      each key, sorted for the conversion, and `rconLatest` the latest rcon
      filing of each key; row `k` of `merged` is `latest[k]` converted and
      merged with its rcon filing; `df` is `merged` sorted for the lags. */
  ghost predicate MergedPanel(riad: seq<Filing>, rcon: seq<Filing>, latest: seq<Filing>, rconLatest: seq<Filing>,
                              merged: seq<Filing>, df: seq<Filing>)
  {
    && LatestOf(latest, riad, FilingKey, Submitted) && SortedBy(latest, YtdOrder)
    && LatestOf(rconLatest, rcon, FilingKey, Submitted)
    && |merged| == |latest|
    && (forall k :: 0 <= k < |latest| ==> IsMergedFiling(merged[k], latest, k, rconLatest))
    && multiset(df) == multiset(merged) && SortedBy(df, LagOrder)
  }

  /** Lines 13-21 on the sorted latest filings give the items QuarterlyCell describes. */
  lemma QuarterlyItems(sorted: seq<Filing>, converted: seq<Filing>, quarterly: seq<Filing>)
    requires |converted| == |sorted|
    requires forall i, c :: 0 <= i < |sorted| && c in YtdColumns ==>
               Cell(converted[i].items, c) == QuarterlyColumn(YearRuns(sorted), Column(sorted, c))[i]
    requires forall i, c :: 0 <= i < |sorted| && c !in YtdColumns ==>
               Cell(converted[i].items, c) == Cell(sorted[i].items, c)
    requires quarterly == AssignColumn(converted, "interest_on_deposit", InterestColumn(converted))
    ensures forall k, n :: 0 <= k < |sorted| ==> Cell(quarterly[k].items, n) == QuarterlyCell(sorted, k, n)
  {
    assert "interest_on_deposit" !in YtdColumns;
    forall k, n | 0 <= k < |sorted|
      ensures Cell(quarterly[k].items, n) == QuarterlyCell(sorted, k, n)
    {
      if n == "interest_on_deposit" {
        assert InterestColumn(converted)[k] == InterestOnDeposit(converted[k].items);
        assert Cell(converted[k].items, "riad4508") == Flow(sorted, k, "riad4508");
        assert Cell(converted[k].items, "riad0093") == Flow(sorted, k, "riad0093");
        assert Cell(converted[k].items, "riadhk04") == Flow(sorted, k, "riadhk04");
        assert Cell(converted[k].items, "riadhk03") == Flow(sorted, k, "riadhk03");
      }
    }
  }

  /** Lines 10-38 of both Call Report scripts: keep the latest riad filing
      per key, convert its YTD items to quarterly flows, add
      interest_on_deposit, merge the latest rcon filing per key, and sort
      for the lags. The result has one row per riad key, in (rssd9001,
      rssd9999, rssd9050) order, and that row carries a latest submission. */
  method MergedFilings(riad: seq<Filing>, rcon: seq<Filing>)
    returns (df: seq<Filing>, ghost latest: seq<Filing>, ghost rconLatest: seq<Filing>, ghost merged: seq<Filing>)
    ensures MergedPanel(riad, rcon, latest, rconLatest, merged, df)
    ensures SortedBy(df, LagOrder)
    ensures UniqueKeys(df, FilingKey)
    ensures forall i :: 0 <= i < |df| ==> FromFiling(df[i], riad)
    ensures forall r :: r in riad ==>
              exists i :: 0 <= i < |df| && FilingKey(df[i]) == FilingKey(r) && SubmittedNoLater(r.submitted, df[i].submitted)
  {
    var riadKept := KeepLatest(riad, FilingKey, Submitted);
    var riadSorted := SortBy(riadKept, YtdOrder);
    UniqueKeysPermutation(riadKept, riadSorted, FilingKey);
    LatestOfPermutation(riadKept, riadSorted, riad, FilingKey, Submitted);
    latest := riadSorted;
    var converted := ConvertYtd(riadSorted);
    var quarterly := AssignColumn(converted, "interest_on_deposit", InterestColumn(converted));
    QuarterlyItems(riadSorted, converted, quarterly);
    SameRowsTransitive(quarterly, converted, riadSorted);
    var rconKept := KeepLatest(rcon, FilingKey, Submitted);
    rconLatest := rconKept;
    LeftJoinUnique(quarterly, rconKept, FilingKey, FilingKey);
    var m := MergeItems(LeftJoin(quarterly, rconKept, FilingKey, FilingKey));
    merged := m;
    MergedRows(riadSorted, quarterly, rconKept, m);
    SameRowsTransitive(m, quarterly, riadSorted);
    SameRowsUnique(m, riadSorted);
    df := SortBy(m, LagOrder);
    UniqueKeysPermutation(m, df, FilingKey);
    RowsFromKept(riad, riadKept, riadSorted, m, df);
    LatestReachesOutput(riad, riadKept, riadSorted, m, df);
  }

  /** Each merged row is its converted riad filing with its rcon filing merged in. */
  lemma MergedRows(sorted: seq<Filing>, quarterly: seq<Filing>, rconKept: seq<Filing>, merged: seq<Filing>)
    requires SameRowsButItems(quarterly, sorted)
    requires forall k, n :: 0 <= k < |sorted| ==> Cell(quarterly[k].items, n) == QuarterlyCell(sorted, k, n)
    requires |LeftJoin(quarterly, rconKept, FilingKey, FilingKey)| == |quarterly|
    requires forall i :: 0 <= i < |quarterly| ==>
               LeftJoin(quarterly, rconKept, FilingKey, FilingKey)[i] == (quarterly[i], Lookup(rconKept, FilingKey, FilingKey(quarterly[i])))
    requires merged == MergeItems(LeftJoin(quarterly, rconKept, FilingKey, FilingKey))
    ensures |merged| == |sorted|
    ensures forall k :: 0 <= k < |sorted| ==> IsMergedFiling(merged[k], sorted, k, rconKept)
  {
    forall k | 0 <= k < |sorted|
      ensures IsMergedFiling(merged[k], sorted, k, rconKept)
    {
      assert FilingKey(quarterly[k]) == FilingKey(sorted[k]);
      var rm := FilingItems(Lookup(rconKept, FilingKey, FilingKey(sorted[k])));
      assert MergedCells(merged[k].items, quarterly[k].items, rm);
      var q := QuarterlyRow(sorted, k);
      forall n
        ensures Cell(merged[k].items, n) == if rm.Some? && n in rm.value then Cell(rm.value, n) else Cell(q, n)
      {
      }
    }
  }
}
