/** programs/clean/control.py: bank-quarter balance-sheet controls from the
    latest control filings, and each bank's deposit-weighted exposure to
    metropolitan counties and county household income, taken from its most
    recent Summary of Deposits year and repeated over all its quarters. */
module Control {
  import opened Tables
  import opened Dedup
  import opened Joins
  import opened CallReport
  import opened Weighted

  // ---------------------------------------------------------------------------
  // Balance-sheet ratios (lines 4-32)
  // ---------------------------------------------------------------------------

  /** One row of the bank-quarter controls; log_asset is not modelled. */
  datatype Controls = Controls(
    bank: int, date: Date,
    roa: Option<real>, coreDepositShare: Option<real>, wholesaleShare: Option<real>, assetToEquity: Option<real>)

  /** rcon3353 + rcon3200 + rconj474 + rcon3190. */
  function WholesaleFunding(items: Cells): Option<real>
  {
    AddAll([Cell(items, "rcon3353"), Cell(items, "rcon3200"), Cell(items, "rconj474"), Cell(items, "rcon3190")])
  }

  /** Lines 26-29: net income, core deposits and wholesale funding over total
      assets, and total assets over equity; each is missing when a term is
      missing or the divisor is zero. */
  function Ratios(f: ControlFiling): (c: Controls)
    ensures c.bank == f.bank && c.date == f.date
    ensures IsRatio(c.roa, Cell(f.items, "riad4340"), Cell(f.items, "rcon2170"))
    ensures IsRatio(c.coreDepositShare, CoreDeposit(f.items), Cell(f.items, "rcon2170"))
    ensures IsRatio(c.wholesaleShare, WholesaleFunding(f.items), Cell(f.items, "rcon2170"))
    ensures IsRatio(c.assetToEquity, Cell(f.items, "rcon2170"), Cell(f.items, "rcon3210"))
  {
    var assets := Cell(f.items, "rcon2170");
    DivIsRatio(None, Cell(f.items, "riad4340"), assets);
    DivIsRatio(None, CoreDeposit(f.items), assets);
    DivIsRatio(None, WholesaleFunding(f.items), assets);
    DivIsRatio(None, assets, Cell(f.items, "rcon3210"));
    Controls(f.bank, f.date,
      Div(Cell(f.items, "riad4340"), assets),
      Div(CoreDeposit(f.items), assets),
      Div(WholesaleFunding(f.items), assets),
      Div(assets, Cell(f.items, "rcon3210")))
  }

  /** `m` is a row of `rows` with its items extended by merged columns. */
  ghost predicate Extends(m: ControlFiling, rows: seq<ControlFiling>)
  {
    exists r :: r in rows && r.(items := m.items) == m && r.items.Keys <= m.items.Keys
  }

  /** The items of the latest rcon1 filing `f` after the merges of lines
      23-24: its own, then those of the latest rcon2 filing of its
      (rssd9001, rssd9999), then those of the latest riad filing of that key;
      a side without that key adds nothing. The three extracts share no item
      column, so no side overrides another. */
  function BothMergedItems(f: ControlFiling, kept2: seq<ControlFiling>, keptRiad: seq<ControlFiling>): Cells
  {
    Merged(Merged(f.items, ControlItems(Lookup(kept2, ControlKey, ControlKey(f)))),
           ControlItems(Lookup(keptRiad, ControlKey, ControlKey(f))))
  }

  /** `merged` is the table of lines 23-24 built from `kept1`, `kept2` and
      `keptRiad`: row `i` is the latest rcon1 filing `kept1[i]` with the
      matching rcon2 and riad items added. So it has one row per key, each
      an rcon1 row extended, and every rcon1 row is matched by a row of its
      key submitted no earlier. */
  ghost predicate IsControlPanel(merged: seq<ControlFiling>, rcon1: seq<ControlFiling>,
                                 kept1: seq<ControlFiling>, kept2: seq<ControlFiling>, keptRiad: seq<ControlFiling>)
  {
    && |merged| == |kept1|
    && (forall i :: 0 <= i < |kept1| ==> merged[i] == kept1[i].(items := BothMergedItems(kept1[i], kept2, keptRiad)))
    && UniqueKeys(merged, ControlKey)
    && (forall i :: 0 <= i < |merged| ==> Extends(merged[i], rcon1))
    && (forall j :: 0 <= j < |rcon1| ==> Superseded(rcon1[j], merged, ControlKey, ControlSubmitted))
  }

  /** Lines 4-32. `kept1`, `kept2` and `keptRiad` are the de-duplicated
      extracts of lines 7-8, 13-14 and 19-20; `merged` is the table the
      ratios are taken from: row `i` is the latest rcon1 filing `kept1[i]`
      with the matching rcon2 and riad items added, so exactly one row per
      (rssd9001, rssd9999) of rcon1; `df` holds the ratios of each merged
      row, in the same order. */
  method BankQuarterControls(rcon1: seq<ControlFiling>, rcon2: seq<ControlFiling>, riad: seq<ControlFiling>)
    returns (merged: seq<ControlFiling>, df: seq<Controls>,
             ghost kept1: seq<ControlFiling>, ghost kept2: seq<ControlFiling>, ghost keptRiad: seq<ControlFiling>)
    ensures LatestOf(kept1, rcon1, ControlKey, ControlSubmitted) && LatestOf(kept2, rcon2, ControlKey, ControlSubmitted)
    ensures LatestOf(keptRiad, riad, ControlKey, ControlSubmitted)
    ensures IsControlPanel(merged, rcon1, kept1, kept2, keptRiad)
    ensures |df| == |merged|
    ensures forall i :: 0 <= i < |merged| ==> df[i] == Ratios(merged[i])
  {
    var k1 := KeepLatest(rcon1, ControlKey, ControlSubmitted);
    var k2 := KeepLatest(rcon2, ControlKey, ControlSubmitted);
    var kr := KeepLatest(riad, ControlKey, ControlSubmitted);
    kept1, kept2, keptRiad := k1, k2, kr;
    assert UniqueKeys(k1, ControlKey) && UniqueKeys(k2, ControlKey) && UniqueKeys(kr, ControlKey);
    merged := MergeBoth(k1, k2, kr);
    MergedFromKept(rcon1, k1, k2, kr);
    df := RatioColumns(merged);
  }

  /** Lines 26-29 on every row. */
  function RatioColumns(merged: seq<ControlFiling>): (df: seq<Controls>)
    ensures |df| == |merged| && forall i :: 0 <= i < |merged| ==> df[i] == Ratios(merged[i])
  {
    seq(|merged|, i requires 0 <= i < |merged| => Ratios(merged[i]))
  }

  /** Lines 23-24: rcon2 and then riad merged onto rcon1 on (rssd9001, rssd9999). */
  function MergeBoth(kept1: seq<ControlFiling>, kept2: seq<ControlFiling>, keptRiad: seq<ControlFiling>): seq<ControlFiling>
  {
    var mid := MergeControl(LeftJoin(kept1, kept2, ControlKey, ControlKey));
    MergeControl(LeftJoin(mid, keptRiad, ControlKey, ControlKey))
  }

  /** Two merges against de-duplicated tables keep each latest rcon1 filing,
      with its key and submission date, and add its rcon2 and riad items. */
  lemma MergedFromKept(rcon1: seq<ControlFiling>, kept1: seq<ControlFiling>, kept2: seq<ControlFiling>, keptRiad: seq<ControlFiling>)
    requires UniqueKeys(kept1, ControlKey) && UniqueKeys(kept2, ControlKey) && UniqueKeys(keptRiad, ControlKey)
    requires forall j :: 0 <= j < |kept1| ==> kept1[j] in rcon1
    requires forall i :: 0 <= i < |rcon1| ==> Superseded(rcon1[i], kept1, ControlKey, ControlSubmitted)
    ensures IsControlPanel(MergeBoth(kept1, kept2, keptRiad), rcon1, kept1, kept2, keptRiad)
  {
    var merged := MergeBoth(kept1, kept2, keptRiad);
    MergeBothPositional(kept1, kept2, keptRiad);
    UniqueKeysPositional(merged, ControlKey, kept1, ControlKey);
    forall i | 0 <= i < |merged|
      ensures Extends(merged[i], rcon1)
    {
      assert kept1[i] in rcon1;
      assert kept1[i].(items := merged[i].items) == merged[i];
    }
    forall j | 0 <= j < |rcon1|
      ensures Superseded(rcon1[j], merged, ControlKey, ControlSubmitted)
    {
      var w :| 0 <= w < |kept1| && ControlKey(kept1[w]) == ControlKey(rcon1[j])
               && SubmittedNoLater(ControlSubmitted(rcon1[j]), ControlSubmitted(kept1[w]));
      assert ControlSubmitted(merged[w]) == ControlSubmitted(kept1[w]);
    }
  }

  /** Row i of the twice-merged table is row i of `kept1` with the matching
      rcon2 items and then the matching riad items added. */
  lemma MergeBothPositional(kept1: seq<ControlFiling>, kept2: seq<ControlFiling>, keptRiad: seq<ControlFiling>)
    requires UniqueKeys(kept2, ControlKey) && UniqueKeys(keptRiad, ControlKey)
    ensures var merged := MergeBoth(kept1, kept2, keptRiad);
      && |merged| == |kept1|
      && (forall i :: 0 <= i < |kept1| ==> merged[i] == kept1[i].(items := BothMergedItems(kept1[i], kept2, keptRiad)))
      && (forall i :: 0 <= i < |kept1| ==> kept1[i].items.Keys <= merged[i].items.Keys)
  {
    var mid := MergeControl(LeftJoin(kept1, kept2, ControlKey, ControlKey));
    MergedControlKeys(kept1, kept2, mid);
    var merged := MergeControl(LeftJoin(mid, keptRiad, ControlKey, ControlKey));
    MergedControlKeys(mid, keptRiad, merged);
    forall i | 0 <= i < |kept1|
      ensures merged[i] == kept1[i].(items := BothMergedItems(kept1[i], kept2, keptRiad))
    {
      var m2 := ControlItems(Lookup(kept2, ControlKey, ControlKey(kept1[i])));
      MergedCellsDetermine(mid[i].items, kept1[i].items, m2);
      MergedCellsDetermine(merged[i].items, mid[i].items, ControlItems(Lookup(keptRiad, ControlKey, ControlKey(mid[i]))));
      assert merged[i].(items := mid[i].items) == mid[i];
    }
  }

  // ---------------------------------------------------------------------------
  // County codes (lines 41, 47)
  // ---------------------------------------------------------------------------

  function Zeros(n: nat): (z: string)
    ensures |z| == n && forall i :: 0 <= i < n ==> z[i] == '0'
  {
    if n == 0 then "" else "0" + Zeros(n - 1)
  }

  /** `Series.str.zfill(width)`: '0's on the left up to `width` characters;
      pandas, unlike Python's str.zfill, gives a sign no special place. */
  function ZFill(s: string, width: nat): (r: string)
    ensures |r| == if |s| >= width then |s| else width
    ensures r[|r| - |s|..] == s
    ensures forall i :: 0 <= i < |r| - |s| ==> r[i] == '0'
  {
    if |s| >= width then s else Zeros(width - |s|) + s
  }

  /** A code already as wide as the width is left alone, and padding twice
      pads once. */
  lemma ZFillIdempotent(s: string, width: nat)
    ensures |s| >= width ==> ZFill(s, width) == s
    ensures ZFill(ZFill(s, width), width) == ZFill(s, width)
  {
  }

  // ---------------------------------------------------------------------------
  // Deposit-weighted exposures (lines 36-73)
  // ---------------------------------------------------------------------------

  /** A Summary of Deposits branch row; STCNTYBR is its text form. */
  datatype Branch = Branch(year: int, rssdid: int, depdom: Option<real>, depsumbr: Option<real>,
                           stcntybr: string, metrobr: Option<real>)

  /** An ACS county row. */
  datatype County = County(fips: string, income: Option<real>)

  /** Line 43: the branch's share of its bank's domestic deposits. */
  function Weight(b: Branch): Option<real>
  {
    Div(b.depsumbr, b.depdom)
  }

  function BranchFips(b: Branch): string { ZFill(b.stcntybr, 5) }
  function CountyFips(c: County): string { ZFill(c.fips, 5) }

  /** Lines 50-56: each branch weighs its METROBR. */
  function MetroObs(sod: seq<Branch>): (obs: seq<Obs<(int, int)>>)
    ensures |obs| == |sod|
    ensures forall i :: 0 <= i < |sod| ==> obs[i] == Obs((sod[i].year, sod[i].rssdid), Weight(sod[i]), sod[i].metrobr)
  {
    seq(|sod|, i requires 0 <= i < |sod| => Obs((sod[i].year, sod[i].rssdid), Weight(sod[i]), sod[i].metrobr))
  }

  /** Lines 60-67: each row of the left merge of branches with ACS counties
      weighs the county's median household income (missing when no county
      matches). */
  function IncomeObs(pairs: seq<(Branch, Option<County>)>): (obs: seq<Obs<(int, int)>>)
    ensures |obs| == |pairs|
    ensures forall i :: 0 <= i < |pairs| ==>
              obs[i] == Obs((pairs[i].0.year, pairs[i].0.rssdid), Weight(pairs[i].0),
                            if pairs[i].1.Some? then pairs[i].1.value.income else None)
  {
    seq(|pairs|, i requires 0 <= i < |pairs| =>
      var (b, c) := pairs[i];
      Obs((b.year, b.rssdid), Weight(b), if c.Some? then c.value.income else None))
  }

  /** A row of `exposures`. */
  datatype Exposure = Exposure(year: int, rssdid: int, metro: Option<real>, income: Option<real>)

  function ExposureKey(e: Exposure): (int, int) { (e.year, e.rssdid) }

  /** The keys of an outer merge: the left keys, then the right keys the
      left lacks. */
  function OuterKeys(a: seq<(int, int)>, b: seq<(int, int)>): (r: seq<(int, int)>)
    requires forall i, j :: 0 <= i < j < |a| ==> a[i] != a[j]
    requires forall i, j :: 0 <= i < j < |b| ==> b[i] != b[j]
    ensures forall i, j :: 0 <= i < j < |r| ==> r[i] != r[j]
    ensures forall k :: k in r <==> k in a || k in b
  {
    var extra := Filter(b, k => k !in a);
    FilterUnique(b, k => k !in a, k => k);
    a + extra
  }

  /** Line 71: `metro_agg.merge(income_agg, on=['YEAR', 'RSSDID'], how='outer')`:
      one row per (YEAR, RSSDID) with a counted METROBR or income, each
      carrying the weighted means, missing on the side that lacks the key. */
  function Exposures(metro: seq<Obs<(int, int)>>, income: seq<Obs<(int, int)>>): (r: seq<Exposure>)
    ensures UniqueKeys(r, ExposureKey)
    ensures forall k :: (exists i :: 0 <= i < |r| && ExposureKey(r[i]) == k) <==>
                        k in CountedGroups(metro) || k in CountedGroups(income)
    ensures forall i :: 0 <= i < |r| ==> r[i].metro == WeightedMean(metro, ExposureKey(r[i]))
    ensures forall i :: 0 <= i < |r| ==> r[i].income == WeightedMean(income, ExposureKey(r[i]))
  {
    var keys := OuterKeys(CountedGroups(metro), CountedGroups(income));
    var r := seq(|keys|, i requires 0 <= i < |keys| => ExposureOf(metro, income, keys[i]));
    ExposuresKeyed(metro, income, keys, r);
    ExposuresMeans(metro, income, keys, r);
    r
  }

  /** The row of key `k`: a mean on each side that has the key, missing on
      the other. */
  function ExposureOf(metro: seq<Obs<(int, int)>>, income: seq<Obs<(int, int)>>, k: (int, int)): Exposure
  {
    Exposure(k.0, k.1, if k in CountedGroups(metro) then WeightedMean(metro, k) else None,
                       if k in CountedGroups(income) then WeightedMean(income, k) else None)
  }

  lemma ExposuresKeyed(metro: seq<Obs<(int, int)>>, income: seq<Obs<(int, int)>>, keys: seq<(int, int)>, r: seq<Exposure>)
    requires forall i, j :: 0 <= i < j < |keys| ==> keys[i] != keys[j]
    requires forall k :: k in keys <==> k in CountedGroups(metro) || k in CountedGroups(income)
    requires |r| == |keys| && forall i :: 0 <= i < |r| ==> r[i] == ExposureOf(metro, income, keys[i])
    ensures UniqueKeys(r, ExposureKey)
    ensures forall k :: (exists i :: 0 <= i < |r| && ExposureKey(r[i]) == k) <==>
                        k in CountedGroups(metro) || k in CountedGroups(income)
  {
    assert forall i :: 0 <= i < |r| ==> ExposureKey(r[i]) == keys[i];
    forall k | k in CountedGroups(metro) || k in CountedGroups(income)
      ensures exists i :: 0 <= i < |r| && ExposureKey(r[i]) == k
    {
      var i :| 0 <= i < |keys| && keys[i] == k;
      assert ExposureKey(r[i]) == k;
    }
  }

  lemma ExposuresMeans(metro: seq<Obs<(int, int)>>, income: seq<Obs<(int, int)>>, keys: seq<(int, int)>, r: seq<Exposure>)
    requires |r| == |keys| && forall i :: 0 <= i < |r| ==> r[i] == ExposureOf(metro, income, keys[i])
    ensures forall i :: 0 <= i < |r| ==> r[i].metro == WeightedMean(metro, ExposureKey(r[i]))
    ensures forall i :: 0 <= i < |r| ==> r[i].income == WeightedMean(income, ExposureKey(r[i]))
  {
    forall i | 0 <= i < |r|
      ensures r[i].metro == WeightedMean(metro, ExposureKey(r[i]))
      ensures r[i].income == WeightedMean(income, ExposureKey(r[i]))
    {
      if keys[i] !in CountedGroups(metro) {
        UncountedGroupHasNoMean(metro, keys[i]);
      }
      if keys[i] !in CountedGroups(income) {
        UncountedGroupHasNoMean(income, keys[i]);
      }
    }
  }

  /** Nothing else of the bank has a later YEAR. */
  predicate IsLatest(ex: seq<Exposure>, e: Exposure)
  {
    forall f :: f in ex && f.rssdid == e.rssdid ==> f.year <= e.year
  }

  /** Every bank has a row with its greatest YEAR. */
  lemma {:induction false} LatestExists(ex: seq<Exposure>, e: Exposure)
    requires e in ex
    ensures exists f :: f in ex && f.rssdid == e.rssdid && IsLatest(ex, f)
    decreases |ex|
  {
    var last := ex[|ex| - 1];
    var init := ex[..|ex| - 1];
    assert ex == init + [last];
    if e == last && forall f :: f in init && f.rssdid == e.rssdid ==> f.year <= e.year {
      assert IsLatest(ex, e);
    } else {
      var g: Exposure;
      if e == last {
        g :| g in init && g.rssdid == e.rssdid && g.year > e.year;
      } else {
        g := e;
      }
      LatestExists(init, g);
      var f :| f in init && f.rssdid == g.rssdid && IsLatest(init, f);
      if last.rssdid == f.rssdid && last.year > f.year {
        forall h | h in ex && h.rssdid == last.rssdid
          ensures h.year <= last.year
        {
          if h != last {
            assert h in init;
          }
        }
        assert IsLatest(ex, last);
      } else {
        assert IsLatest(ex, f);
      }
    }
  }

  /** Lines 72-73: `sort_values(['RSSDID', 'YEAR'])` and
      `groupby('RSSDID').tail(1)`: the rows with the greatest YEAR of their
      bank, one per bank because (YEAR, RSSDID) is a key. */
  function LatestExposures(ex: seq<Exposure>): (r: seq<Exposure>)
    requires UniqueKeys(ex, ExposureKey)
    ensures forall i, j :: 0 <= i < j < |r| ==> r[i].rssdid != r[j].rssdid
    ensures forall i :: 0 <= i < |r| ==> r[i] in ex && IsLatest(ex, r[i])
    ensures forall e :: e in ex ==> exists i :: 0 <= i < |r| && r[i].rssdid == e.rssdid
  {
    var r := Filter(ex, e => IsLatest(ex, e));
    FilterUnique(ex, e => IsLatest(ex, e), ExposureKey);
    forall e | e in ex
      ensures exists i :: 0 <= i < |r| && r[i].rssdid == e.rssdid
    {
      LatestExists(ex, e);
      var f :| f in ex && f.rssdid == e.rssdid && IsLatest(ex, f);
      var m :| 0 <= m < |ex| && ex[m] == f;
      assert f in r;
    }
    r
  }

  /** Lines 49-71: the deposit-weighted exposures of every (YEAR, RSSDID)
      with a counted branch, before the latest year is picked. */
  function SodExposures(sod: seq<Branch>, acs: seq<County>): seq<Exposure>
  {
    Exposures(MetroObs(sod), IncomeObs(LeftJoin(sod, acs, BranchFips, CountyFips)))
  }

  /** Lines 49-73: the most recent deposit-weighted exposures of every bank
      with a counted branch: one row per bank, each the exposures row of
      the bank's greatest YEAR, and no bank of the exposures left out. */
  function BankExposures(sod: seq<Branch>, acs: seq<County>): (r: seq<Exposure>)
    ensures forall i, j :: 0 <= i < j < |r| ==> r[i].rssdid != r[j].rssdid
    ensures forall i :: 0 <= i < |r| ==> r[i] in SodExposures(sod, acs) && IsLatest(SodExposures(sod, acs), r[i])
    ensures forall e :: e in SodExposures(sod, acs) ==> exists i :: 0 <= i < |r| && r[i].rssdid == e.rssdid
  {
    LatestExposures(SodExposures(sod, acs))
  }

  // ---------------------------------------------------------------------------
  // The controls table (lines 76-81)
  // ---------------------------------------------------------------------------

  datatype BankControls = BankControls(controls: Controls, metro: Option<real>, income: Option<real>)

  function ControlsBank(c: Controls): int { c.bank }
  function ExposureBank(e: Exposure): int { e.rssdid }

  /** `b` carries the exposures of its bank's row of `latest`, or none when
      the bank has no row. */
  predicate CarriesExposures(b: BankControls, latest: seq<Exposure>)
  {
    match Lookup(latest, ExposureBank, b.controls.bank)
    case Some(e) => b.metro == e.metro && b.income == e.income
    case None => b.metro.None? && b.income.None?
  }

  /** One row of the left merge. */
  function Attach(c: Controls, e: Option<Exposure>): BankControls
  {
    if e.Some? then BankControls(c, e.value.metro, e.value.income) else BankControls(c, None, None)
  }

  /** `df.merge(latest_exposures, on='rssd9001', how='left')`: every
      bank-quarter keeps its row, in order, and receives its bank's latest
      exposures, or none when the bank has no branch data; the exposures
      repeat unchanged over all the quarters of a bank. */
  function AttachExposures(df: seq<Controls>, latest: seq<Exposure>): (out: seq<BankControls>)
    requires UniqueKeys(latest, ExposureBank)
    ensures |out| == |df|
    ensures forall i :: 0 <= i < |df| ==> out[i].controls == df[i]
    ensures forall i :: 0 <= i < |df| ==> CarriesExposures(out[i], latest)
    ensures forall i, j :: 0 <= i < |df| && 0 <= j < |df| && df[i].bank == df[j].bank ==>
              out[i].metro == out[j].metro && out[i].income == out[j].income
  {
    var pairs := LeftJoin(df, latest, ControlsBank, ExposureBank);
    var out := seq(|pairs|, i requires 0 <= i < |pairs| => Attach(pairs[i].0, pairs[i].1));
    AttachedRows(df, latest, pairs, out);
    out
  }

  lemma AttachedRows(df: seq<Controls>, latest: seq<Exposure>, pairs: seq<(Controls, Option<Exposure>)>, out: seq<BankControls>)
    requires UniqueKeys(latest, ExposureBank) && pairs == LeftJoin(df, latest, ControlsBank, ExposureBank)
    requires |out| == |pairs| && forall i :: 0 <= i < |pairs| ==> out[i] == Attach(pairs[i].0, pairs[i].1)
    ensures |out| == |df|
    ensures forall i :: 0 <= i < |df| ==> out[i].controls == df[i]
    ensures forall i :: 0 <= i < |df| ==> CarriesExposures(out[i], latest)
    ensures forall i, j :: 0 <= i < |df| && 0 <= j < |df| && df[i].bank == df[j].bank ==>
              out[i].metro == out[j].metro && out[i].income == out[j].income
  {
    LeftJoinUnique(df, latest, ControlsBank, ExposureBank);
    assert forall i :: 0 <= i < |df| ==> out[i] == Attach(df[i], Lookup(latest, ExposureBank, df[i].bank));
    forall i, j | 0 <= i < |df| && 0 <= j < |df| && df[i].bank == df[j].bank
      ensures out[i].metro == out[j].metro && out[i].income == out[j].income
    {
      assert Lookup(latest, ExposureBank, df[i].bank) == Lookup(latest, ExposureBank, df[j].bank);
    }
  }

  function BankQuarterKey(b: BankControls): (int, Date)
  {
    (b.controls.bank, b.controls.date)
  }

  /** Some row of `out` is the bank-quarter `k`. */
  ghost predicate HasBankQuarter(out: seq<BankControls>, k: (int, Date))
  {
    exists i :: 0 <= i < |out| && BankQuarterKey(out[i]) == k
  }

  /** The whole script up to the log and z-score columns. Row `i` holds the
      ratios of the merged row `merged[i]`, the latest rcon1 filing
      `kept1[i]` with its rcon2 and riad items (as BankQuarterControls
      says), and its bank's latest exposures (BankExposures); so one row
      per rcon1 (rssd9001, rssd9999) and no other key, with the exposures
      repeated over the quarters of a bank. */
  method ControlsTable(rcon1: seq<ControlFiling>, rcon2: seq<ControlFiling>, riad: seq<ControlFiling>,
                       sod: seq<Branch>, acs: seq<County>)
    returns (out: seq<BankControls>, ghost merged: seq<ControlFiling>,
             ghost kept1: seq<ControlFiling>, ghost kept2: seq<ControlFiling>, ghost keptRiad: seq<ControlFiling>)
    ensures LatestOf(kept1, rcon1, ControlKey, ControlSubmitted) && LatestOf(kept2, rcon2, ControlKey, ControlSubmitted)
    ensures LatestOf(keptRiad, riad, ControlKey, ControlSubmitted)
    ensures IsControlPanel(merged, rcon1, kept1, kept2, keptRiad)
    ensures |out| == |merged|
    ensures forall i :: 0 <= i < |out| ==> out[i].controls == Ratios(merged[i])
    ensures forall i :: 0 <= i < |out| ==> CarriesExposures(out[i], BankExposures(sod, acs))
    ensures UniqueKeys(out, BankQuarterKey)
    ensures forall i :: 0 <= i < |out| ==> HasControlKey(rcon1, BankQuarterKey(out[i]))
    ensures forall j :: 0 <= j < |rcon1| ==> HasBankQuarter(out, ControlKey(rcon1[j]))
    ensures forall i, j :: 0 <= i < |out| && 0 <= j < |out| && out[i].controls.bank == out[j].controls.bank ==>
              out[i].metro == out[j].metro && out[i].income == out[j].income
  {
    var df;
    merged, df, kept1, kept2, keptRiad := BankQuarterControls(rcon1, rcon2, riad);
    var latest := BankExposures(sod, acs);
    out := AttachExposures(df, latest);
    OutputKeys(rcon1, merged, df, out);
  }

  /** The controls keep the keys of the merged filings they come from. */
  lemma OutputKeys(rcon1: seq<ControlFiling>, merged: seq<ControlFiling>, df: seq<Controls>, out: seq<BankControls>)
    requires UniqueKeys(merged, ControlKey)
    requires forall i :: 0 <= i < |merged| ==> Extends(merged[i], rcon1)
    requires forall j :: 0 <= j < |rcon1| ==> Superseded(rcon1[j], merged, ControlKey, ControlSubmitted)
    requires |df| == |merged| && forall i :: 0 <= i < |merged| ==> df[i] == Ratios(merged[i])
    requires |out| == |df| && forall i :: 0 <= i < |df| ==> out[i].controls == df[i]
    ensures UniqueKeys(out, BankQuarterKey)
    ensures forall i :: 0 <= i < |out| ==> HasControlKey(rcon1, BankQuarterKey(out[i]))
    ensures forall j :: 0 <= j < |rcon1| ==> HasBankQuarter(out, ControlKey(rcon1[j]))
  {
    assert forall i :: 0 <= i < |out| ==> BankQuarterKey(out[i]) == ControlKey(merged[i]);
    UniqueKeysPositional(out, BankQuarterKey, merged, ControlKey);
    OutputKeysFromRcon1(rcon1, merged, out);
    OutputKeysCover(rcon1, merged, out);
  }

  lemma OutputKeysFromRcon1(rcon1: seq<ControlFiling>, merged: seq<ControlFiling>, out: seq<BankControls>)
    requires forall i :: 0 <= i < |merged| ==> Extends(merged[i], rcon1)
    requires |out| == |merged| && forall i :: 0 <= i < |out| ==> BankQuarterKey(out[i]) == ControlKey(merged[i])
    ensures forall i :: 0 <= i < |out| ==> HasControlKey(rcon1, BankQuarterKey(out[i]))
  {
    forall i | 0 <= i < |out|
      ensures HasControlKey(rcon1, BankQuarterKey(out[i]))
    {
      var r :| r in rcon1 && r.(items := merged[i].items) == merged[i] && r.items.Keys <= merged[i].items.Keys;
      var j :| 0 <= j < |rcon1| && rcon1[j] == r;
      assert ControlKey(rcon1[j]) == BankQuarterKey(out[i]);
    }
  }

  lemma OutputKeysCover(rcon1: seq<ControlFiling>, merged: seq<ControlFiling>, out: seq<BankControls>)
    requires forall j :: 0 <= j < |rcon1| ==> Superseded(rcon1[j], merged, ControlKey, ControlSubmitted)
    requires |out| == |merged| && forall i :: 0 <= i < |out| ==> BankQuarterKey(out[i]) == ControlKey(merged[i])
    ensures forall j :: 0 <= j < |rcon1| ==> HasBankQuarter(out, ControlKey(rcon1[j]))
  {
    forall j | 0 <= j < |rcon1|
      ensures HasBankQuarter(out, ControlKey(rcon1[j]))
    {
      var w :| 0 <= w < |merged| && ControlKey(merged[w]) == ControlKey(rcon1[j])
               && SubmittedNoLater(ControlSubmitted(rcon1[j]), ControlSubmitted(merged[w]));
      assert BankQuarterKey(out[w]) == ControlKey(merged[w]);
    }
  }
}
