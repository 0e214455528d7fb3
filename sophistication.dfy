/** programs/bank_sophistication_index_map.py: one row per (YEAR, CERT) of
    the Summary of Deposits, carrying the bank's deposit-weighted county
    sophistication index and its deposit-weighted exposure to county deposit
    concentration (HHI on the 0-1 share scale). */
module Sophistication {
  import opened Tables
  import opened Sorting
  import opened Dedup
  import opened Joins
  import opened Weighted
  import Control

  // ---------------------------------------------------------------------------
  // Branch rows (lines 9-24)
  // ---------------------------------------------------------------------------

  /** The identifier-like columns a bank row keeps (NAMEFULL, ASSET, BKCLASS, DEPDOM). */
  datatype BankInfo = BankInfo(name: string, asset: Option<real>, bkclass: string, depdom: Option<real>)

  /** A Summary of Deposits branch row as read (line 12); STCNTYBR is its text form. */
  datatype SodRow = SodRow(year: int, cert: int, info: BankInfo, depsumbr: Option<real>, stcntybr: string)

  /** A row of the precomputed county index. */
  datatype CountyIndex = CountyIndex(fips: string, index: Option<real>)

  /** A branch row after lines 15-24: padded fips, weight, and the county's
      sophistication index (missing when no county matches). */
  datatype Branch = Branch(year: int, cert: int, info: BankInfo, depsumbr: Option<real>,
                           fips: string, weight: Option<real>, index: Option<real>)

  /** Line 20: the branch's share of its bank's domestic deposits. */
  function Weight(r: SodRow): Option<real>
  {
    Div(r.depsumbr, r.info.depdom)
  }

  function SodFips(r: SodRow): string { Control.ZFill(r.stcntybr, 5) }
  function IndexFips(c: CountyIndex): string { Control.ZFill(c.fips, 5) }

  /** The branch that sod row `r` becomes once the index row `c` (if any) is attached. */
  function Attach(r: SodRow, c: Option<CountyIndex>): Branch
  {
    Branch(r.year, r.cert, r.info, r.depsumbr, SodFips(r), Weight(r), if c.Some? then c.value.index else None)
  }

  /** `b` is sod row `r` with its fips padded and its weight computed. */
  predicate StandardisedFrom(b: Branch, r: SodRow)
  {
    b.year == r.year && b.cert == r.cert && b.info == r.info && b.depsumbr == r.depsumbr &&
    b.fips == SodFips(r) && |b.fips| >= 5 && IsRatio(b.weight, r.depsumbr, r.info.depdom)
  }

  ghost predicate FromSod(b: Branch, sod: seq<SodRow>)
  {
    exists r :: r in sod && StandardisedFrom(b, r)
  }

  /** Lines 12-24: pad both fips columns to five characters, weigh each
      branch, then left-merge the county index on fips. Every output row is a
      standardised sod row; when the index has one row per padded fips, the
      rows stay one-to-one with the input and each gets its county's index. */
  method PrepareBranches(sod: seq<SodRow>, index: seq<CountyIndex>) returns (rows: seq<Branch>)
    ensures |rows| >= |sod|
    ensures forall j :: 0 <= j < |rows| ==> FromSod(rows[j], sod)
    ensures UniqueKeys(index, IndexFips) ==>
              |rows| == |sod| &&
              forall i :: 0 <= i < |sod| ==> rows[i] == Attach(sod[i], Lookup(index, IndexFips, SodFips(sod[i])))
  {
    var pairs := LeftJoin(sod, index, SodFips, IndexFips);
    LeftJoinKeepsEveryLeftRow(sod, index, SodFips, IndexFips);
    LeftJoinRowsFromLeft(sod, index, SodFips, IndexFips);
    rows := seq(|pairs|, j requires 0 <= j < |pairs| => Attach(pairs[j].0, pairs[j].1));
    forall j | 0 <= j < |rows|
      ensures FromSod(rows[j], sod)
    {
      var r := pairs[j].0;
      DivIsRatio(None, r.depsumbr, r.info.depdom);
      assert StandardisedFrom(rows[j], r);
    }
    if UniqueKeys(index, IndexFips) {
      LeftJoinUnique(sod, index, SodFips, IndexFips);
    }
  }

  // ---------------------------------------------------------------------------
  // Branch weights (lines 18-20)
  // ---------------------------------------------------------------------------

  /** Σ weight over the branches of bank (year, cert), skipping missing weights. */
  function BankWeightTotal(sod: seq<SodRow>, year: int, cert: int): real
  {
    if sod == [] then 0.0
    else
      var r := sod[|sod| - 1];
      BankWeightTotal(sod[..|sod| - 1], year, cert) +
        (if r.year == year && r.cert == cert && Weight(r).Some? then Weight(r).value else 0.0)
  }

  /** Σ DEPSUMBR over the branches of bank (year, cert), skipping missing values. */
  function BankDeposits(sod: seq<SodRow>, year: int, cert: int): real
  {
    if sod == [] then 0.0
    else
      var r := sod[|sod| - 1];
      BankDeposits(sod[..|sod| - 1], year, cert) +
        (if r.year == year && r.cert == cert && r.depsumbr.Some? then r.depsumbr.value else 0.0)
  }

  lemma WeightStep(w0: real, d0: real, b: real, dd: real, w: real, d: real)
    requires dd != 0.0 && w0 * dd == d0
    requires w == w0 + b / dd && d == d0 + b
    ensures w * dd == d
  {
  }

  /** When every branch of the bank reports the same nonzero DEPDOM, the
      bank's weights sum to its branch deposits over DEPDOM. */
  lemma {:induction false} WeightsSumToDepositShare(sod: seq<SodRow>, year: int, cert: int, depdom: real)
    requires depdom != 0.0
    requires forall i :: 0 <= i < |sod| && sod[i].year == year && sod[i].cert == cert ==>
               sod[i].info.depdom == Some(depdom)
    ensures BankWeightTotal(sod, year, cert) * depdom == BankDeposits(sod, year, cert)
    decreases |sod|
  {
    if sod != [] {
      var init := sod[..|sod| - 1];
      assert forall i :: 0 <= i < |init| ==> init[i] == sod[i];
      WeightsSumToDepositShare(init, year, cert, depdom);
      WeightsShareStep(sod, year, cert, depdom);
    }
  }

  /** One more branch keeps the weight total at the deposits over DEPDOM. */
  lemma {:induction false} WeightsShareStep(sod: seq<SodRow>, year: int, cert: int, depdom: real)
    requires depdom != 0.0 && sod != []
    requires sod[|sod| - 1].year == year && sod[|sod| - 1].cert == cert ==> sod[|sod| - 1].info.depdom == Some(depdom)
    requires BankWeightTotal(sod[..|sod| - 1], year, cert) * depdom == BankDeposits(sod[..|sod| - 1], year, cert)
    ensures BankWeightTotal(sod, year, cert) * depdom == BankDeposits(sod, year, cert)
  {
    var b := LastDeposit(sod, year, cert);
    LastBranchAdds(sod, year, cert, depdom);
    WeightStep(BankWeightTotal(sod[..|sod| - 1], year, cert), BankDeposits(sod[..|sod| - 1], year, cert), b, depdom,
               BankWeightTotal(sod, year, cert), BankDeposits(sod, year, cert));
  }

  /** The DEPSUMBR the last branch adds to bank (year, cert), 0 when it adds none. */
  function LastDeposit(sod: seq<SodRow>, year: int, cert: int): real
    requires sod != []
  {
    var r := sod[|sod| - 1];
    if r.year == year && r.cert == cert && r.depsumbr.Some? then r.depsumbr.value else 0.0
  }

  /** The last branch adds its DEPSUMBR to the deposits and that over DEPDOM to the weights. */
  lemma {:induction false} LastBranchAdds(sod: seq<SodRow>, year: int, cert: int, depdom: real)
    requires depdom != 0.0 && sod != []
    requires sod[|sod| - 1].year == year && sod[|sod| - 1].cert == cert ==> sod[|sod| - 1].info.depdom == Some(depdom)
    ensures BankWeightTotal(sod, year, cert) == BankWeightTotal(sod[..|sod| - 1], year, cert) + LastDeposit(sod, year, cert) / depdom
    ensures BankDeposits(sod, year, cert) == BankDeposits(sod[..|sod| - 1], year, cert) + LastDeposit(sod, year, cert)
  {
    var r := sod[|sod| - 1];
    if r.year == year && r.cert == cert && r.depsumbr.Some? {
      assert Weight(r) == Some(r.depsumbr.value / depdom);
    }
  }

  /** ... so the weights sum to 1 when DEPDOM is the bank's total branch deposits. */
  lemma {:induction false} WeightsSumToOne(sod: seq<SodRow>, year: int, cert: int)
    requires BankDeposits(sod, year, cert) != 0.0
    requires forall i :: 0 <= i < |sod| && sod[i].year == year && sod[i].cert == cert ==>
               sod[i].info.depdom == Some(BankDeposits(sod, year, cert))
    ensures BankWeightTotal(sod, year, cert) == 1.0
  {
    var d := BankDeposits(sod, year, cert);
    WeightsSumToDepositShare(sod, year, cert, d);
    Cancel(BankWeightTotal(sod, year, cert), d, BankDeposits(sod, year, cert));
  }

  lemma Cancel(w: real, d: real, e: real)
    requires d != 0.0 && w * d == e && e == d
    ensures w == 1.0
  {
    assert (w - 1.0) * d == 0.0;
  }

  // ---------------------------------------------------------------------------
  // Bank sophistication index (lines 26-39)
  // ---------------------------------------------------------------------------

  function YearCert(b: Branch): (int, int) { (b.year, b.cert) }

  /** Each branch weighs its county's index; `dropna` on the index and the
      skipped missing weights are the observations that are not counted. */
  function SophisticationObs(rows: seq<Branch>): (obs: seq<Obs<(int, int)>>)
    ensures |obs| == |rows|
    ensures forall i :: 0 <= i < |rows| ==> obs[i] == Obs(YearCert(rows[i]), rows[i].weight, rows[i].index)
  {
    seq(|rows|, i requires 0 <= i < |rows| => Obs(YearCert(rows[i]), rows[i].weight, rows[i].index))
  }

  /** bank_weighted_sophistication_index of bank (year, cert). */
  function BankSophistication(rows: seq<Branch>, key: (int, int)): Option<real>
  {
    WeightedMean(SophisticationObs(rows), key)
  }

  /** With nonnegative weights, the bank's index lies within the range of
      the county indices of its branches. */
  lemma SophisticationWithin(rows: seq<Branch>, key: (int, int), lo: real, hi: real)
    requires forall i :: 0 <= i < |rows| && YearCert(rows[i]) == key && rows[i].weight.Some? && rows[i].index.Some? ==>
               rows[i].weight.value >= 0.0 && lo <= rows[i].index.value <= hi
    ensures BankSophistication(rows, key).Some? ==> lo <= BankSophistication(rows, key).value <= hi
  {
    var obs := SophisticationObs(rows);
    assert Bracketed(obs, key, lo, hi);
    WeightedMeanWithin(obs, key, lo, hi);
  }

  // ---------------------------------------------------------------------------
  // County shares and HHI (lines 41-63)
  // ---------------------------------------------------------------------------

  /** A (YEAR, fips, CERT) group: one bank in one county-year. */
  type BankCounty = (int, string, int)

  function BankCountyOf(b: Branch): BankCounty { (b.year, b.fips, b.cert) }

  /** The branch's DEPSUMBR as `sum` counts it: 0 when missing. */
  function Dep(b: Branch): real { if b.depsumbr.Some? then b.depsumbr.value else 0.0 }

  predicate InCounty(k: BankCounty, year: int, fips: string) { k.0 == year && k.1 == fips }

  /** The (YEAR, fips, CERT) groups of the table, each once. */
  function Groups(rows: seq<Branch>): (ks: seq<BankCounty>)
    ensures forall i, j :: 0 <= i < j < |ks| ==> ks[i] != ks[j]
    ensures forall i :: 0 <= i < |rows| ==> BankCountyOf(rows[i]) in ks
    ensures forall j :: 0 <= j < |ks| ==> exists i :: 0 <= i < |rows| && BankCountyOf(rows[i]) == ks[j]
  {
    var all := seq(|rows|, i requires 0 <= i < |rows| => BankCountyOf(rows[i]));
    assert forall i :: 0 <= i < |rows| ==> all[i] == BankCountyOf(rows[i]);
    Distinct(all)
  }

  /** The groups of county-year (year, fips): the banks present there. */
  function CountyBanks(rows: seq<Branch>, year: int, fips: string): (ks: seq<BankCounty>)
    ensures forall i, j :: 0 <= i < j < |ks| ==> ks[i] != ks[j]
    ensures forall j :: 0 <= j < |ks| ==> InCounty(ks[j], year, fips)
    ensures forall i :: 0 <= i < |rows| && rows[i].year == year && rows[i].fips == fips ==> BankCountyOf(rows[i]) in ks
  {
    var g := Groups(rows);
    FilterUnique(g, k => InCounty(k, year, fips), k => k);
    Filter(g, k => InCounty(k, year, fips))
  }

  /** bank_county_deposits of group `k` (lines 44-48). */
  function BankCountyDeposits(rows: seq<Branch>, k: BankCounty): real
  {
    if rows == [] then 0.0
    else
      var b := rows[|rows| - 1];
      BankCountyDeposits(rows[..|rows| - 1], k) + (if BankCountyOf(b) == k then Dep(b) else 0.0)
  }

  /** county_total_deposits of (year, fips) (lines 50-54). */
  function CountyTotal(rows: seq<Branch>, year: int, fips: string): real
  {
    if rows == [] then 0.0
    else
      var b := rows[|rows| - 1];
      CountyTotal(rows[..|rows| - 1], year, fips) + (if b.year == year && b.fips == fips then Dep(b) else 0.0)
  }

  /** county_share of group `k` (lines 56-57). */
  function Share(rows: seq<Branch>, k: BankCounty): Option<real>
  {
    Div(Some(BankCountyDeposits(rows, k)), Some(CountyTotal(rows, k.0, k.1)))
  }

  /** The county shares of the banks of (year, fips). */
  function CountyShares(rows: seq<Branch>, year: int, fips: string): (s: seq<Option<real>>)
    ensures |s| == |CountyBanks(rows, year, fips)|
  {
    var ks := CountyBanks(rows, year, fips);
    seq(|ks|, i requires 0 <= i < |ks| => Share(rows, ks[i]))
  }

  /** county_deposit_hhi of (year, fips): Σ share², missing squares skipped (lines 58-63). */
  function CountyHhi(rows: seq<Branch>, year: int, fips: string): real
  {
    SumPresent(Squares(CountyShares(rows, year, fips)))
  }

  /** `share ** 2`, cell by cell. */
  function Squares(s: seq<Option<real>>): (q: seq<Option<real>>)
    ensures |q| == |s| && forall i :: 0 <= i < |s| ==> q[i] == Mul(s[i], s[i])
  {
    seq(|s|, i requires 0 <= i < |s| => Mul(s[i], s[i]))
  }

  function DepositsOf(rows: seq<Branch>, ks: seq<BankCounty>): (d: seq<real>)
    ensures |d| == |ks| && forall i :: 0 <= i < |ks| ==> d[i] == BankCountyDeposits(rows, ks[i])
  {
    seq(|ks|, i requires 0 <= i < |ks| => BankCountyDeposits(rows, ks[i]))
  }

  lemma {:induction false} SumOfZeros(xs: seq<real>)
    requires forall i :: 0 <= i < |xs| ==> xs[i] == 0.0
    ensures Sum(xs) == 0.0
    decreases |xs|
  {
    if xs != [] {
      SumOfZeros(xs[..|xs| - 1]);
    }
  }

  /** Adding one branch adds its deposits to its own group only. */
  lemma {:induction false} DepositsStep(init: seq<Branch>, b: Branch, ks: seq<BankCounty>)
    requires forall i, j :: 0 <= i < j < |ks| ==> ks[i] != ks[j]
    ensures Sum(DepositsOf(init + [b], ks)) ==
            Sum(DepositsOf(init, ks)) + (if BankCountyOf(b) in ks then Dep(b) else 0.0)
    decreases |ks|
  {
    var rows := init + [b];
    assert rows[..|rows| - 1] == init;
    if ks != [] {
      var ks0 := ks[..|ks| - 1];
      var k := ks[|ks| - 1];
      DepositsStep(init, b, ks0);
      assert DepositsOf(rows, ks)[..|ks| - 1] == DepositsOf(rows, ks0);
      assert DepositsOf(init, ks)[..|ks| - 1] == DepositsOf(init, ks0);
      assert BankCountyOf(b) in ks <==> BankCountyOf(b) in ks0 || BankCountyOf(b) == k by {
        assert ks == ks0 + [k];
      }
      assert BankCountyOf(b) == k ==> BankCountyOf(b) !in ks0;
    }
  }

  /** Summing the bank-by-county deposits of a county's banks gives the
      county total: every branch of the county lies in exactly one group. */
  lemma {:induction false} DepositsExchange(rows: seq<Branch>, ks: seq<BankCounty>, year: int, fips: string)
    requires forall i, j :: 0 <= i < j < |ks| ==> ks[i] != ks[j]
    requires forall j :: 0 <= j < |ks| ==> InCounty(ks[j], year, fips)
    requires forall i :: 0 <= i < |rows| && rows[i].year == year && rows[i].fips == fips ==> BankCountyOf(rows[i]) in ks
    ensures Sum(DepositsOf(rows, ks)) == CountyTotal(rows, year, fips)
    decreases |rows|
  {
    if rows == [] {
      SumOfZeros(DepositsOf(rows, ks));
    } else {
      var init := rows[..|rows| - 1];
      var b := rows[|rows| - 1];
      assert rows == init + [b];
      assert forall i :: 0 <= i < |init| ==> init[i] == rows[i];
      DepositsExchange(init, ks, year, fips);
      DepositsStep(init, b, ks);
      if !(b.year == year && b.fips == fips) {
        assert BankCountyOf(b) !in ks;
      }
    }
  }

  /** Present cells: their sum and the sum of their squares are those of the values. */
  lemma {:induction false} PresentSums(s: seq<Option<real>>, x: seq<real>)
    requires |s| == |x| && forall i :: 0 <= i < |s| ==> s[i] == Some(x[i])
    ensures SumPresent(s) == Sum(x) && SumPresent(Squares(s)) == SumSq(x)
    decreases |s|
  {
    if s != [] {
      var n := |s| - 1;
      PresentSums(s[..n], x[..n]);
      assert Squares(s)[..n] == Squares(s[..n]);
    }
  }

  /** The fractions d[i] / t of a county's bank deposits over its total. */
  function Fractions(d: seq<real>, t: real): (x: seq<real>)
    requires t != 0.0
    ensures |x| == |d| && Sum(x) == Sum(d) / t
    ensures forall i :: 0 <= i < |d| ==> x[i] == d[i] / t
  {
    SumScaled(d, t);
    seq(|d|, i requires 0 <= i < |d| => d[i] / t)
  }

  /** In a county-year with nonzero total deposits every share is present:
      the group's deposits over the county total, and these fractions sum to 1. */
  lemma SharesAreFractions(rows: seq<Branch>, year: int, fips: string)
    requires CountyTotal(rows, year, fips) != 0.0
    ensures var x := Fractions(DepositsOf(rows, CountyBanks(rows, year, fips)), CountyTotal(rows, year, fips));
            && |CountyShares(rows, year, fips)| == |x|
            && (forall i :: 0 <= i < |x| ==> CountyShares(rows, year, fips)[i] == Some(x[i]))
            && Sum(x) == 1.0
  {
    var t := CountyTotal(rows, year, fips);
    var d := DepositsOf(rows, CountyBanks(rows, year, fips));
    DepositsExchange(rows, CountyBanks(rows, year, fips), year, fips);
    assert Sum(Fractions(d, t)) == t / t;
    DivSelf(t);
  }

  /** The shares of a county-year with nonzero total deposits sum to 1. */
  lemma SharesSumToOne(rows: seq<Branch>, year: int, fips: string)
    requires CountyTotal(rows, year, fips) != 0.0
    ensures SumPresent(CountyShares(rows, year, fips)) == 1.0
  {
    SharesAreFractions(rows, year, fips);
    PresentSums(CountyShares(rows, year, fips),
                Fractions(DepositsOf(rows, CountyBanks(rows, year, fips)), CountyTotal(rows, year, fips)));
  }

  /** Every branch reports a nonnegative DEPSUMBR. */
  predicate NonNegativeDeposits(rows: seq<Branch>)
  {
    forall i :: 0 <= i < |rows| ==> Dep(rows[i]) >= 0.0
  }

  lemma {:induction false} BankCountyDepositsNonNegative(rows: seq<Branch>, k: BankCounty)
    requires NonNegativeDeposits(rows)
    ensures BankCountyDeposits(rows, k) >= 0.0
    decreases |rows|
  {
    if rows != [] {
      var init := rows[..|rows| - 1];
      assert forall i :: 0 <= i < |init| ==> init[i] == rows[i];
      BankCountyDepositsNonNegative(init, k);
    }
  }

  lemma {:induction false} CountyTotalNonNegative(rows: seq<Branch>, year: int, fips: string)
    requires NonNegativeDeposits(rows)
    ensures CountyTotal(rows, year, fips) >= 0.0
    decreases |rows|
  {
    if rows != [] {
      var init := rows[..|rows| - 1];
      assert forall i :: 0 <= i < |init| ==> init[i] == rows[i];
      CountyTotalNonNegative(init, year, fips);
    }
  }

  /** Nonnegative fractions summing to 1: their sum of squares lies in [1/n, 1]. */
  lemma FractionSquares(x: seq<real>)
    requires Sum(x) == 1.0 && forall i :: 0 <= i < |x| ==> x[i] >= 0.0
    ensures |x| > 0 && SumSq(x) <= 1.0 && SumSq(x) >= 1.0 / (|x| as real)
  {
    SumSqBelowSquare(x);
    CauchySchwarz(x);
    var h, n := SumSq(x), |x| as real;
    HhiScale(h, n);
  }

  lemma HhiScale(h: real, n: real)
    requires n * h >= 1.0 && n > 0.0
    ensures h >= 1.0 / n
  {
    assert h == (h * n) / n;
  }

  lemma DivSelf(t: real)
    requires t != 0.0
    ensures t / t == 1.0
  {
  }

  lemma DivNonNegative(a: real, t: real)
    requires a >= 0.0 && t > 0.0
    ensures a / t >= 0.0
  {
    assert (a / t) * t == a;
  }

  /** With nonnegative deposits and a positive county total, the HHI lies
      in [1/n, 1] for the n banks of the county. */
  lemma HhiBounds(rows: seq<Branch>, year: int, fips: string)
    requires NonNegativeDeposits(rows) && CountyTotal(rows, year, fips) > 0.0
    ensures CountyHhi(rows, year, fips) <= 1.0
    ensures |CountyBanks(rows, year, fips)| > 0
    ensures CountyHhi(rows, year, fips) >= 1.0 / (|CountyBanks(rows, year, fips)| as real)
  {
    var t := CountyTotal(rows, year, fips);
    var ks := CountyBanks(rows, year, fips);
    var x := Fractions(DepositsOf(rows, ks), t);
    SharesAreFractions(rows, year, fips);
    PresentSums(CountyShares(rows, year, fips), x);
    forall i | 0 <= i < |x|
      ensures x[i] >= 0.0
    {
      var a := BankCountyDeposits(rows, ks[i]);
      BankCountyDepositsNonNegative(rows, ks[i]);
      DivNonNegative(a, t);
      assert x[i] == a / t;
    }
    FractionSquares(x);
  }

  /** A county-year where a single bank has branches has an HHI of 1. */
  lemma HhiSingleBank(rows: seq<Branch>, year: int, fips: string)
    requires CountyTotal(rows, year, fips) != 0.0 && |CountyBanks(rows, year, fips)| == 1
    ensures CountyHhi(rows, year, fips) == 1.0
  {
    var x := Fractions(DepositsOf(rows, CountyBanks(rows, year, fips)), CountyTotal(rows, year, fips));
    SharesAreFractions(rows, year, fips);
    PresentSums(CountyShares(rows, year, fips), x);
    SingleFraction(x);
  }

  /** One fraction summing to 1 is 1, and so is its square. */
  lemma SingleFraction(x: seq<real>)
    requires |x| == 1 && Sum(x) == 1.0
    ensures SumSq(x) == 1.0
  {
    assert x[..0] == [];
    assert Sum(x) == x[0];
  }

  lemma {:induction false} SumPresentOfNone(xs: seq<Option<real>>)
    requires forall i :: 0 <= i < |xs| ==> xs[i].None?
    ensures SumPresent(xs) == 0.0
    decreases |xs|
  {
    if xs != [] {
      SumPresentOfNone(xs[..|xs| - 1]);
    }
  }

  /** With nonnegative deposits every county HHI lies in [0, 1]; a county
      without deposits has no shares and an HHI of 0. */
  lemma HhiUnitInterval(rows: seq<Branch>, year: int, fips: string)
    requires NonNegativeDeposits(rows)
    ensures 0.0 <= CountyHhi(rows, year, fips) <= 1.0
  {
    CountyTotalNonNegative(rows, year, fips);
    if CountyTotal(rows, year, fips) > 0.0 {
      HhiBounds(rows, year, fips);
      ReciprocalPositive(|CountyBanks(rows, year, fips)|);
    } else {
      SumPresentOfNone(Squares(CountyShares(rows, year, fips)));
    }
  }

  lemma ReciprocalPositive(n: nat)
    requires n > 0
    ensures 1.0 / (n as real) > 0.0
  {
  }

  // ---------------------------------------------------------------------------
  // Bank exposure to county HHI (lines 65-79)
  // ---------------------------------------------------------------------------

  /** bank_county_weight of group `k`: Σ weight, missing weights skipped. */
  function BankCountyWeight(rows: seq<Branch>, k: BankCounty): real
  {
    if rows == [] then 0.0
    else
      var b := rows[|rows| - 1];
      BankCountyWeight(rows[..|rows| - 1], k) +
        (if BankCountyOf(b) == k && b.weight.Some? then b.weight.value else 0.0)
  }

  /** One observation per (YEAR, CERT, fips) group: its weight and its
      county's HHI, which the left merge always finds. */
  function HhiObs(rows: seq<Branch>): (obs: seq<Obs<(int, int)>>)
    ensures |obs| == |Groups(rows)|
    ensures forall j :: 0 <= j < |obs| ==>
              var k := Groups(rows)[j];
              obs[j] == Obs((k.0, k.2), Some(BankCountyWeight(rows, k)), Some(CountyHhi(rows, k.0, k.1)))
  {
    var g := Groups(rows);
    seq(|g|, j requires 0 <= j < |g| =>
      Obs((g[j].0, g[j].2), Some(BankCountyWeight(rows, g[j])), Some(CountyHhi(rows, g[j].0, g[j].1))))
  }

  /** bank_weighted_county_deposit_hhi of bank (year, cert). */
  function BankHhi(rows: seq<Branch>, key: (int, int)): Option<real>
  {
    WeightedMean(HhiObs(rows), key)
  }

  predicate NonNegativeWeights(rows: seq<Branch>)
  {
    forall i :: 0 <= i < |rows| ==> rows[i].weight.Some? ==> rows[i].weight.value >= 0.0
  }

  lemma {:induction false} BankCountyWeightNonNegative(rows: seq<Branch>, k: BankCounty)
    requires NonNegativeWeights(rows)
    ensures BankCountyWeight(rows, k) >= 0.0
    decreases |rows|
  {
    if rows != [] {
      var init := rows[..|rows| - 1];
      assert forall i :: 0 <= i < |init| ==> init[i] == rows[i];
      BankCountyWeightNonNegative(init, k);
    }
  }

  /** With nonnegative weights, the bank's HHI exposure lies within the
      range of the HHIs of the counties it has branches in. */
  lemma BankHhiWithin(rows: seq<Branch>, key: (int, int), lo: real, hi: real)
    requires NonNegativeWeights(rows)
    requires forall i :: 0 <= i < |rows| && YearCert(rows[i]) == key ==> lo <= CountyHhi(rows, rows[i].year, rows[i].fips) <= hi
    ensures BankHhi(rows, key).Some? ==> lo <= BankHhi(rows, key).value <= hi
  {
    var obs := HhiObs(rows);
    var g := Groups(rows);
    forall j | 0 <= j < |obs| && obs[j].group == key && Counted(obs[j])
      ensures obs[j].w.value >= 0.0 && lo <= obs[j].y.value <= hi
    {
      BankCountyWeightNonNegative(rows, g[j]);
      var i :| 0 <= i < |rows| && BankCountyOf(rows[i]) == g[j];
      assert YearCert(rows[i]) == key;
    }
    assert Bracketed(obs, key, lo, hi);
    WeightedMeanWithin(obs, key, lo, hi);
  }

  /** ... in particular it lies in [0, 1] when deposits are nonnegative too. */
  lemma BankHhiUnitInterval(rows: seq<Branch>, key: (int, int))
    requires NonNegativeWeights(rows) && NonNegativeDeposits(rows)
    ensures BankHhi(rows, key).Some? ==> 0.0 <= BankHhi(rows, key).value <= 1.0
  {
    forall i | 0 <= i < |rows| && YearCert(rows[i]) == key
      ensures 0.0 <= CountyHhi(rows, rows[i].year, rows[i].fips) <= 1.0
    {
      HhiUnitInterval(rows, rows[i].year, rows[i].fips);
    }
    BankHhiWithin(rows, key, 0.0, 1.0);
  }

  // ---------------------------------------------------------------------------
  // The bank table (lines 81-97)
  // ---------------------------------------------------------------------------

  /** One row per (YEAR, CERT). */
  datatype BankRow = BankRow(year: int, cert: int, info: BankInfo, fips: string, index: Option<real>,
                             sophistication: Option<real>, hhi: Option<real>)

  function BankKey(r: BankRow): (int, int) { (r.year, r.cert) }

  function YearCertOrder(b: Branch): seq<int> { [b.year, b.cert] }

  /** Bank row `o` carries the identifier columns of the first branch of its
      bank in the sorted table. */
  ghost predicate CarriesFirst(o: BankRow, sorted: seq<Branch>)
  {
    exists b :: IsFirstRow(b, sorted, YearCert) && o == BankRow(b.year, b.cert, b.info, b.fips, b.index, o.sophistication, o.hhi)
  }

  ghost predicate HasBank(out: seq<BankRow>, key: (int, int))
  {
    exists j :: 0 <= j < |out| && BankKey(out[j]) == key
  }

  function SophisticationKey(p: ((int, int), Option<real>)): (int, int) { p.0 }

  /** The value a left merge on (YEAR, CERT) brings from an aggregated table. */
  function Merged(m: Option<((int, int), Option<real>)>): Option<real>
  {
    if m.Some? then m.value.1 else None
  }

  lemma {:induction false} MergedMean(obs: seq<Obs<(int, int)>>, key: (int, int))
    ensures UniqueKeys(WeightedMeans(obs), SophisticationKey)
    ensures Merged(Lookup(WeightedMeans(obs), SophisticationKey, key)) == WeightedMean(obs, key)
  {
    MeansKeyed(obs);
    var agg := WeightedMeans(obs);
    var m := Lookup(agg, SophisticationKey, key);
    if m.Some? {
      var j :| 0 <= j < |agg| && agg[j] == m.value;
      assert agg[j].1 == WeightedMean(obs, key);
    } else {
      MeanMissing(obs, key);
    }
  }

  /** The aggregated table has one row per (YEAR, CERT). */
  lemma {:induction false} MeansKeyed(obs: seq<Obs<(int, int)>>)
    ensures UniqueKeys(WeightedMeans(obs), SophisticationKey)
  {
    var agg := WeightedMeans(obs);
    assert forall i :: 0 <= i < |agg| ==> SophisticationKey(agg[i]) == CountedGroups(obs)[i];
  }

  /** A bank the aggregated table lacks has no weighted mean. */
  lemma {:induction false} MeanMissing(obs: seq<Obs<(int, int)>>, key: (int, int))
    requires Lookup(WeightedMeans(obs), SophisticationKey, key).None?
    ensures WeightedMean(obs, key).None?
  {
    var agg := WeightedMeans(obs);
    var g := CountedGroups(obs);
    assert key !in g by {
      forall j | 0 <= j < |g| ensures g[j] != key {
        assert SophisticationKey(agg[j]) == g[j];
      }
    }
    UncountedGroupHasNoMean(obs, key);
  }

  /** Lines 83-87: `sort_values(['YEAR', 'CERT']).drop_duplicates(['YEAR', 'CERT'])`:
      one branch row per bank, the first of its bank in sort order. */
  function FirstPerBank(rows: seq<Branch>): (base: seq<Branch>)
    ensures UniqueKeys(base, YearCert)
    ensures forall j :: 0 <= j < |base| ==> IsFirstRow(base[j], SortBy(rows, YearCertOrder), YearCert)
    ensures forall i :: 0 <= i < |rows| ==> HasKeyOf(base, YearCert, YearCert(rows[i]))
  {
    var sorted := SortBy(rows, YearCertOrder);
    DropDuplicatesSpec(sorted, YearCert);
    DropDuplicatesKeepsFirst(sorted, YearCert);
    FirstPerBankCovers(rows);
    DropDuplicates(sorted, YearCert)
  }

  lemma FirstPerBankCovers(rows: seq<Branch>)
    ensures forall i :: 0 <= i < |rows| ==> HasKeyOf(DropDuplicates(SortBy(rows, YearCertOrder), YearCert), YearCert, YearCert(rows[i]))
  {
    var sorted := SortBy(rows, YearCertOrder);
    var base := DropDuplicates(sorted, YearCert);
    DropDuplicatesSpec(sorted, YearCert);
    forall i | 0 <= i < |rows|
      ensures HasKeyOf(base, YearCert, YearCert(rows[i]))
    {
      assert rows[i] in multiset(sorted);
      var m :| 0 <= m < |sorted| && sorted[m] == rows[i];
      assert HasKeyOf(base, YearCert, YearCert(sorted[m]));
    }
  }

  /** Lines 88-97: a first branch row with both bank aggregates merged on
      (YEAR, CERT); a bank missing from an aggregate gets a missing value,
      as it has no mean. */
  function WithAggregates(b: Branch, rows: seq<Branch>): (o: BankRow)
    ensures o == BankRow(b.year, b.cert, b.info, b.fips, b.index, o.sophistication, o.hhi)
    ensures o.sophistication == BankSophistication(rows, YearCert(b))
    ensures o.hhi == BankHhi(rows, YearCert(b))
  {
    MergedMean(SophisticationObs(rows), YearCert(b));
    MergedMean(HhiObs(rows), YearCert(b));
    BankRow(b.year, b.cert, b.info, b.fips, b.index,
            Merged(Lookup(WeightedMeans(SophisticationObs(rows)), SophisticationKey, YearCert(b))),
            Merged(Lookup(WeightedMeans(HhiObs(rows)), SophisticationKey, YearCert(b))))
  }

  /** Lines 81-97: the first branch row of each (YEAR, CERT) in sort order,
      without DEPSUMBR and weight, then the two bank aggregates merged on
      (YEAR, CERT). */
  function BankTable(rows: seq<Branch>): (out: seq<BankRow>)
    ensures UniqueKeys(out, BankKey)
    ensures forall i :: 0 <= i < |rows| ==> HasBank(out, YearCert(rows[i]))
    ensures forall j :: 0 <= j < |out| ==> CarriesFirst(out[j], SortBy(rows, YearCertOrder))
    ensures forall j :: 0 <= j < |out| ==>
              out[j].sophistication == BankSophistication(rows, BankKey(out[j])) &&
              out[j].hhi == BankHhi(rows, BankKey(out[j]))
  {
    var base := FirstPerBank(rows);
    var out := seq(|base|, j requires 0 <= j < |base| => WithAggregates(base[j], rows));
    AggregatedKeys(rows, base, out);
    AggregatedCarriesFirst(rows, base, out);
    AggregatedCovers(rows, base, out);
    out
  }

  lemma AggregatedKeys(rows: seq<Branch>, base: seq<Branch>, out: seq<BankRow>)
    requires base == FirstPerBank(rows)
    requires |out| == |base| && forall j :: 0 <= j < |out| ==> out[j] == WithAggregates(base[j], rows)
    ensures forall j :: 0 <= j < |out| ==> BankKey(out[j]) == YearCert(base[j])
    ensures UniqueKeys(out, BankKey)
  {
    assert forall j :: 0 <= j < |out| ==> BankKey(out[j]) == YearCert(base[j]);
  }

  lemma AggregatedCarriesFirst(rows: seq<Branch>, base: seq<Branch>, out: seq<BankRow>)
    requires base == FirstPerBank(rows)
    requires |out| == |base| && forall j :: 0 <= j < |out| ==> out[j] == WithAggregates(base[j], rows)
    ensures forall j :: 0 <= j < |out| ==> CarriesFirst(out[j], SortBy(rows, YearCertOrder))
  {
    forall j | 0 <= j < |out|
      ensures CarriesFirst(out[j], SortBy(rows, YearCertOrder))
    {
      assert IsFirstRow(base[j], SortBy(rows, YearCertOrder), YearCert);
    }
  }

  lemma AggregatedCovers(rows: seq<Branch>, base: seq<Branch>, out: seq<BankRow>)
    requires forall i :: 0 <= i < |rows| ==> HasKeyOf(base, YearCert, YearCert(rows[i]))
    requires |out| == |base| && forall j :: 0 <= j < |out| ==> BankKey(out[j]) == YearCert(base[j])
    ensures forall i :: 0 <= i < |rows| ==> HasBank(out, YearCert(rows[i]))
  {
    forall i | 0 <= i < |rows|
      ensures HasBank(out, YearCert(rows[i]))
    {
      assert HasKeyOf(base, YearCert, YearCert(rows[i]));
      var j :| 0 <= j < |base| && YearCert(base[j]) == YearCert(rows[i]);
      assert BankKey(out[j]) == YearCert(rows[i]);
    }
  }
}
