/** `working_panel_merge.py`: the screening of the merged bank-quarter panel.
    The merges against the bank-credit, instrument, control and FFR tables
    happen before and after what is modelled here; a row of `df` is one
    bank-quarter with its Date kept as the text read from the CSV. */
module WorkingPanel {
  import opened Tables
  import opened Sorting
  import CallReport
  import DepositInterestRate

  // ---------------------------------------------------------------------------
  // Constants (lines 25-31)
  // ---------------------------------------------------------------------------

  const AssetLargeThreshold: real := 10000000.0
  const QLow: real := 0.005
  const QHigh: real := 0.995
  const ZLimit: real := 10.0
  const CommercialClasses: set<string> := {"N", "NM", "SM"}
  const DateStart: string := "2022-01-01"
  /** The upper end of the policy window as the script writes it. */
  const DateEndAsWritten: string := "2023-9-30"
  /** The upper end with a two-digit month, as every Date in the panel is written. */
  const DateEnd: string := "2023-09-30"

  // ---------------------------------------------------------------------------
  // Dates as text
  // ---------------------------------------------------------------------------

  /** The character codes of a text; Python compares strings by these. */
  function Codes(s: string): (r: seq<int>)
    ensures |r| == |s|
    ensures forall i :: 0 <= i < |s| ==> r[i] == s[i] as int
  {
    seq(|s|, i requires 0 <= i < |s| => s[i] as int)
  }

  lemma CodesAppend(a: string, b: string)
    ensures Codes(a + b) == Codes(a) + Codes(b)
  {
  }

  lemma CodesInjective(a: string, b: string)
    requires Codes(a) == Codes(b)
    ensures a == b
  {
    assert |a| == |b|;
    forall i | 0 <= i < |a|
      ensures a[i] == b[i]
    {
      assert Codes(a)[i] == Codes(b)[i];
    }
  }

  /** `a <= b` on Python strings. */
  predicate TextLeq(a: string, b: string)
  {
    LexLeq(Codes(a), Codes(b))
  }

  /** Comparing two concatenations whose first parts have the same length
      compares the first parts, and only when they are equal the rest. */
  lemma {:induction false} LexAppend(a1: seq<int>, a2: seq<int>, b1: seq<int>, b2: seq<int>)
    requires |a1| == |b1|
    ensures LexLeq(a1 + a2, b1 + b2) <==> (a1 != b1 && LexLeq(a1, b1)) || (a1 == b1 && LexLeq(a2, b2))
    decreases |a1|
  {
    if |a1| > 0 {
      assert (a1 + a2)[1..] == a1[1..] + a2;
      assert (b1 + b2)[1..] == b1[1..] + b2;
      LexAppend(a1[1..], a2, b1[1..], b2);
      assert a1 == [a1[0]] + a1[1..] && b1 == [b1[0]] + b1[1..];
    } else {
      assert a1 + a2 == a2 && b1 + b2 == b2;
    }
  }

  lemma TextAppend(a1: string, a2: string, b1: string, b2: string)
    requires |a1| == |b1|
    ensures TextLeq(a1 + a2, b1 + b2) <==> (a1 != b1 && TextLeq(a1, b1)) || (a1 == b1 && TextLeq(a2, b2))
  {
    CodesAppend(a1, a2);
    CodesAppend(b1, b2);
    LexAppend(Codes(a1), Codes(a2), Codes(b1), Codes(b2));
    if Codes(a1) == Codes(b1) {
      CodesInjective(a1, b1);
    }
  }

  function Pow10(w: nat): (r: nat)
    ensures r > 0
  {
    if w == 0 then 1 else 10 * Pow10(w - 1)
  }

  /** `x` written with exactly `w` decimal digits, zero-padded on the left. */
  function Digits(x: nat, w: nat): (r: string)
    ensures |r| == w
  {
    if w == 0 then [] else Digits(x / 10, w - 1) + [(48 + x % 10) as char]
  }

  /** Fixed-width decimal texts compare as the numbers they write. */
  lemma {:induction false} DigitsOrder(x: nat, y: nat, w: nat)
    requires x < Pow10(w) && y < Pow10(w)
    ensures TextLeq(Digits(x, w), Digits(y, w)) <==> x <= y
    ensures Digits(x, w) == Digits(y, w) <==> x == y
    decreases w
  {
    if w == 0 {
      assert x == 0 && y == 0;
    } else {
      var hx, hy := x / 10, y / 10;
      assert hx < Pow10(w - 1) && hy < Pow10(w - 1);
      DigitsOrder(hx, hy, w - 1);
      var lx, ly := [(48 + x % 10) as char], [(48 + y % 10) as char];
      TextAppend(Digits(hx, w - 1), lx, Digits(hy, w - 1), ly);
      SingleCodeOrder(48 + x % 10, 48 + y % 10);
      assert Codes(lx) == [48 + x % 10] && Codes(ly) == [48 + y % 10];
      assert lx == ly <==> x % 10 == y % 10 by {
        if lx == ly {
          assert lx[0] == ly[0];
        }
      }
      assert Digits(x, w) == Digits(hx, w - 1) + lx;
      assert Digits(y, w) == Digits(hy, w - 1) + ly;
      if Digits(x, w) == Digits(y, w) {
        assert Digits(x, w)[..w - 1] == Digits(hx, w - 1);
        assert Digits(y, w)[..w - 1] == Digits(hy, w - 1);
        assert Digits(x, w)[w - 1] == lx[0];
        assert Digits(y, w)[w - 1] == ly[0];
      }
    }
  }

  lemma SingleCodeOrder(a: int, b: int)
    ensures LexLeq([a], [b]) <==> a <= b
  {
    assert [a][1..] == [] && [b][1..] == [];
  }

  /** A text whose first character is below another's comes first. */
  lemma FirstCharDecides(a: string, b: string)
    requires |a| > 0 && |b| > 0 && a[0] < b[0]
    ensures TextLeq(a, b)
  {
  }

  /** A calendar date that `str(pd.Timestamp)` writes as YYYY-MM-DD. */
  predicate IsoWritable(d: Date)
  {
    0 <= d.year < 10000 && 1 <= d.month <= 12 && 1 <= d.day <= 31
  }

  /** The text pandas writes to the CSV for a parsed date. */
  function IsoText(d: Date): (r: string)
    requires IsoWritable(d)
    ensures |r| == 10
  {
    Digits(d.year, 4) + ("-" + (Digits(d.month, 2) + ("-" + Digits(d.day, 2))))
  }

  /** On ISO texts, string order is the calendar order. */
  lemma IsoTextOrder(a: Date, b: Date)
    requires IsoWritable(a) && IsoWritable(b)
    ensures TextLeq(IsoText(a), IsoText(b)) <==> DateAtMost(a, b)
  {
    assert Pow10(4) == 10000 && Pow10(2) == 100;
    DigitsOrder(a.year, b.year, 4);
    DigitsOrder(a.month, b.month, 2);
    DigitsOrder(a.day, b.day, 2);
    var ma, mb := Digits(a.month, 2), Digits(b.month, 2);
    var da, db := Digits(a.day, 2), Digits(b.day, 2);
    TextAppend("-", da, "-", db);
    TextAppend(ma, "-" + da, mb, "-" + db);
    TextAppend("-", ma + ("-" + da), "-", mb + ("-" + db));
    TextAppend(Digits(a.year, 4), "-" + (ma + ("-" + da)), Digits(b.year, 4), "-" + (mb + ("-" + db)));
  }

  // ---------------------------------------------------------------------------
  // The policy window (line 87)
  // ---------------------------------------------------------------------------

  /** `(df['Date'] >= DATE_START) & (df['Date'] <= DATE_END)` as written: a
      comparison of texts against "2023-9-30". */
  predicate WindowAsWritten(date: string)
  {
    TextLeq(DateStart, date) && TextLeq(date, DateEndAsWritten)
  }

  /** With the single-digit month, the as-written window lets in the fourth
      quarter of 2023: "2023-12-31" is after 30 September 2023 yet passes. */
  lemma WindowAsWrittenAdmitsDecember()
    ensures IsoWritable(Date(2023, 12, 31))
    ensures IsoText(Date(2023, 12, 31)) == "2023-12-31"
    ensures DateBefore(Date(2023, 9, 30), Date(2023, 12, 31))
    ensures WindowAsWritten("2023-12-31")
  {
    DecemberText();
    FirstCharDecides("12-31", "9-30");
    TextAppend("2023-", "12-31", "2023-", "9-30");
    assert "2023-12-31" == "2023-" + "12-31" && DateEndAsWritten == "2023-" + "9-30";
    FirstCharDecides("2-01-01", "3-12-31");
    TextAppend("202", "2-01-01", "202", "3-12-31");
    assert DateStart == "202" + "2-01-01" && "2023-12-31" == "202" + "3-12-31";
  }

  lemma DecemberText()
    ensures IsoText(Date(2023, 12, 31)) == "2023-12-31"
  {
    YearText2023();
    assert Digits(12, 2) == "12" by {
      assert Digits(1, 1) == "1";
    }
    assert Digits(31, 2) == "31" by {
      assert Digits(3, 1) == "3";
    }
  }

  lemma YearText2023()
    ensures Digits(2023, 4) == "2023"
  {
    assert Digits(2, 1) == "2";
    assert Digits(20, 2) == "20";
    assert Digits(202, 3) == "202";
  }

  /** The window with both ends written as the panel writes dates. */
  predicate InWindow(date: string)
  {
    TextLeq(DateStart, date) && TextLeq(date, DateEnd)
  }

  /** For every date of the panel, the corrected window is exactly the
      calendar interval from 1 January 2022 to 30 September 2023. */
  lemma InWindowIsCalendarInterval(d: Date)
    requires IsoWritable(d)
    ensures InWindow(IsoText(d)) <==> DateAtMost(Date(2022, 1, 1), d) && DateAtMost(d, Date(2023, 9, 30))
  {
    WindowEndTexts();
    IsoTextOrder(Date(2022, 1, 1), d);
    IsoTextOrder(d, Date(2023, 9, 30));
  }

  lemma WindowEndTexts()
    ensures IsoText(Date(2022, 1, 1)) == DateStart
    ensures IsoText(Date(2023, 9, 30)) == DateEnd
  {
    StartText();
    EndText();
  }

  lemma StartText()
    ensures IsoText(Date(2022, 1, 1)) == DateStart
  {
    YearText2022();
    PaddedOne();
  }

  lemma YearText2022()
    ensures Digits(2022, 4) == "2022"
  {
    assert Digits(2, 1) == "2";
    assert Digits(20, 2) == "20";
    assert Digits(202, 3) == "202";
  }

  lemma PaddedOne()
    ensures Digits(1, 2) == "01"
  {
    assert Digits(0, 1) == "0";
  }

  lemma EndText()
    ensures IsoText(Date(2023, 9, 30)) == DateEnd
  {
    YearText2023();
    assert Digits(9, 2) == "09" by {
      assert Digits(0, 1) == "0";
    }
    assert Digits(30, 2) == "30" by {
      assert Digits(3, 1) == "3";
    }
  }

  // ---------------------------------------------------------------------------
  // Rows and columns
  // ---------------------------------------------------------------------------

  /** One row of `df`: Bank ID, the Date text, BKCLASS (missing when the
      instrument table has no row for the bank) and the numeric columns. */
  datatype PanelRow = PanelRow(bank: int, date: string, bkclass: Option<string>, cells: Cells)

  const Flag := "small_buz_lending_flag"
  const FlagAsOf := "small_buz_lending_flag_asof"
  const SophisticationZ := "sophistication_index_z"
  const HhiZ := "hhi_z"
  const DensityZ := "branch_density_z"
  const Asset := "ASSET"
  const FirstQuarter := "in_first_quarter"
  const LargeBank := "large_bank"

  /** The loan changes set to zero where missing (lines 65-69). */
  const FillColumns: seq<string> :=
    ["d_multifamily_loans", "d_single_family_loans", "d_total_loans", "d_total_loans_not_for_sale", "d_C&I"]

  /** `winsor_vars` (lines 121-127). */
  const WinsorColumns: seq<string> :=
    [CallReport.DAverageDeposit, CallReport.DAverageInterestBearing, DepositInterestRate.DCoreDeposit,
     "d_total_loans", "d_total_loans_not_for_sale"]

  /** Each running-sum column with the change it accumulates (lines 156-165). */
  const CumColumns: seq<(string, string)> :=
    [(CallReport.DRateOnDeposit, "cum_d_interest_rate_on_deposit"),
     (CallReport.DRateOnInterestBearing, "cum_d_interest_rate_on_interest_bearing_deposit"),
     (CallReport.DAverageDeposit, "cum_d_average_deposit"),
     (CallReport.DAverageInterestBearing, "cum_d_average_interest_bearing_deposit")]

  const CumTargets: set<string> :=
    {"cum_d_interest_rate_on_deposit", "cum_d_interest_rate_on_interest_bearing_deposit",
     "cum_d_average_deposit", "cum_d_average_interest_bearing_deposit"}

  /** The columns added after the rows are screened. */
  const AddedColumns: set<string> := {FirstQuarter} + CumTargets + {LargeBank}

  function Column(rows: seq<PanelRow>, c: string): (r: seq<Option<real>>)
    ensures |r| == |rows|
    ensures forall i :: 0 <= i < |rows| ==> r[i] == Cell(rows[i].cells, c)
  {
    seq(|rows|, i requires 0 <= i < |rows| => Cell(rows[i].cells, c))
  }

  function Banks(rows: seq<PanelRow>): (r: seq<int>)
    ensures |r| == |rows|
    ensures forall i :: 0 <= i < |rows| ==> r[i] == rows[i].bank
  {
    seq(|rows|, i requires 0 <= i < |rows| => rows[i].bank)
  }

  function Dates(rows: seq<PanelRow>): (r: seq<string>)
    ensures |r| == |rows|
    ensures forall i :: 0 <= i < |rows| ==> r[i] == rows[i].date
  {
    seq(|rows|, i requires 0 <= i < |rows| => rows[i].date)
  }

  /** `sort_values(['Bank ID', 'Date'])`: by bank, then by the Date text. */
  function PanelOrder(r: PanelRow): seq<int>
  {
    [r.bank] + Codes(r.date)
  }

  /** `a` is `b` with only the added columns possibly changed. */
  ghost predicate Extends(a: PanelRow, b: PanelRow)
  {
    && a.(cells := b.cells) == b
    && forall n :: n !in AddedColumns ==> Cell(a.cells, n) == Cell(b.cells, n)
  }

  /** Row by row, `a` is `b` with only the columns `changed` possibly changed. */
  ghost predicate KeepsOthers(a: seq<PanelRow>, b: seq<PanelRow>, changed: set<string>)
  {
    && |a| == |b|
    && (forall i :: 0 <= i < |a| ==> a[i].(cells := b[i].cells) == b[i])
    && (forall i :: 0 <= i < |a| ==> SameOutside(a[i].cells, b[i].cells, changed))
  }

  ghost predicate SameOutside(x: Cells, y: Cells, changed: set<string>)
  {
    forall n :: n !in changed ==> Cell(x, n) == Cell(y, n)
  }

  lemma KeepsOthersTransitive(a: seq<PanelRow>, b: seq<PanelRow>, c: seq<PanelRow>, x: set<string>, y: set<string>)
    requires KeepsOthers(a, b, x) && KeepsOthers(b, c, y)
    ensures KeepsOthers(a, c, x + y)
  {
  }

  // ---------------------------------------------------------------------------
  // Missing loan changes become zero (lines 65-69)
  // ---------------------------------------------------------------------------

  /** `y` is `x.fillna(0)`. */
  predicate FilledWithZero(y: Option<real>, x: Option<real>)
  {
    y.Some? && (x.Some? ==> y == x) && (x.None? ==> y == Some(0.0))
  }

  /** `df[c] = df[c].fillna(0)`. */
  function FillColumn(rows: seq<PanelRow>, c: string): (r: seq<PanelRow>)
    ensures |r| == |rows|
    ensures forall i :: 0 <= i < |rows| ==> r[i].(cells := rows[i].cells) == rows[i]
    ensures forall i :: 0 <= i < |rows| ==> FilledWithZero(Cell(r[i].cells, c), Cell(rows[i].cells, c))
    ensures forall i, n :: 0 <= i < |rows| && n != c ==> Cell(r[i].cells, n) == Cell(rows[i].cells, n)
  {
    seq(|rows|, i requires 0 <= i < |rows| =>
      var x := Cell(rows[i].cells, c);
      rows[i].(cells := SetCell(rows[i].cells, c, Some(if x.Some? then x.value else 0.0))))
  }

  /** `out` is `rows` with the columns in `done` filled with zero and every
      other cell untouched. */
  ghost predicate FilledUpTo(rows: seq<PanelRow>, out: seq<PanelRow>, done: seq<string>)
  {
    && |out| == |rows|
    && (forall i :: 0 <= i < |rows| ==> out[i].(cells := rows[i].cells) == rows[i])
    && (forall i, c :: 0 <= i < |rows| && c in done ==> FilledWithZero(Cell(out[i].cells, c), Cell(rows[i].cells, c)))
    && (forall i, c :: 0 <= i < |rows| && c !in done ==> Cell(out[i].cells, c) == Cell(rows[i].cells, c))
  }

  lemma FillStep(rows: seq<PanelRow>, out: seq<PanelRow>, done: seq<string>, c: string)
    requires FilledUpTo(rows, out, done)
    ensures FilledUpTo(rows, FillColumn(out, c), done + [c])
  {
    var next := FillColumn(out, c);
    forall i, n | 0 <= i < |rows| && n in done + [c]
      ensures FilledWithZero(Cell(next[i].cells, n), Cell(rows[i].cells, n))
    {
      if n != c {
        assert n in done;
      } else if n in done {
        assert FilledWithZero(Cell(out[i].cells, n), Cell(rows[i].cells, n));
        assert FilledWithZero(Cell(next[i].cells, n), Cell(out[i].cells, n));
      } else {
        assert Cell(out[i].cells, n) == Cell(rows[i].cells, n);
        assert FilledWithZero(Cell(next[i].cells, n), Cell(out[i].cells, n));
      }
    }
  }

  /** The five `fillna(0)` reassignments, one column after another: afterwards
      none of the five is missing, values that were present are kept, and
      every other cell is untouched. */
  method FillDeltas(rows: seq<PanelRow>) returns (out: seq<PanelRow>)
    ensures |out| == |rows|
    ensures forall i :: 0 <= i < |rows| ==> out[i].(cells := rows[i].cells) == rows[i]
    ensures forall i, c :: 0 <= i < |rows| && c in FillColumns ==> FilledWithZero(Cell(out[i].cells, c), Cell(rows[i].cells, c))
    ensures forall i, c :: 0 <= i < |rows| && c !in FillColumns ==> Cell(out[i].cells, c) == Cell(rows[i].cells, c)
  {
    out := rows;
    for k := 0 to |FillColumns|
      invariant FilledUpTo(rows, out, FillColumns[..k])
    {
      var c := FillColumns[k];
      FillStep(rows, out, FillColumns[..k], c);
      out := FillColumn(out, c);
      assert FillColumns[..k + 1] == FillColumns[..k] + [c];
    }
    assert FillColumns[..|FillColumns|] == FillColumns;
  }

  // ---------------------------------------------------------------------------
  // The lending flag carried forward within a bank (lines 72-75)
  // ---------------------------------------------------------------------------

  /** The most recent present `small_buz_lending_flag` of row `i`'s bank, at
      or before row `i`, is 1. */
  ghost predicate LatestFlagIsOne(rows: seq<PanelRow>, i: nat)
    requires i < |rows|
  {
    exists j :: 0 <= j <= i && rows[j].bank == rows[i].bank && Cell(rows[j].cells, Flag) == Some(1.0)
      && forall m :: j < m <= i && rows[m].bank == rows[i].bank ==> Cell(rows[m].cells, Flag).None?
  }

  /** Two positions of group `b` before `n`, each present and followed only
      by missing values of the group, are the same position. */
  lemma LatestIsUnique<K>(keys: seq<K>, xs: seq<Option<real>>, b: K, n: nat, j: nat, j': nat)
    requires |keys| == |xs| && j < n && j' < n && n <= |xs|
    requires keys[j] == b && xs[j].Some? && forall m :: j < m < n && keys[m] == b ==> xs[m].None?
    requires keys[j'] == b && xs[j'].Some? && forall m :: j' < m < n && keys[m] == b ==> xs[m].None?
    ensures j == j'
  {
  }

  lemma LastPresentIsLatest(rows: seq<PanelRow>, i: nat)
    requires i < |rows|
    ensures LastPresent(Banks(rows), Column(rows, Flag), rows[i].bank, i + 1) == Some(1.0) <==> LatestFlagIsOne(rows, i)
  {
    var keys, xs := Banks(rows), Column(rows, Flag);
    if LatestFlagIsOne(rows, i) {
      LatestFlagFound(rows, i, keys, xs);
    }
    if LastPresent(keys, xs, rows[i].bank, i + 1) == Some(1.0) {
      LatestFlagWitness(rows, i, keys, xs);
    }
  }

  lemma LatestFlagFound(rows: seq<PanelRow>, i: nat, keys: seq<int>, xs: seq<Option<real>>)
    requires i < |rows| && keys == Banks(rows) && xs == Column(rows, Flag)
    requires LatestFlagIsOne(rows, i)
    ensures LastPresent(keys, xs, rows[i].bank, i + 1) == Some(1.0)
  {
    var b := rows[i].bank;
    var j :| 0 <= j <= i && rows[j].bank == b && Cell(rows[j].cells, Flag) == Some(1.0)
      && forall m :: j < m <= i && rows[m].bank == b ==> Cell(rows[m].cells, Flag).None?;
    assert keys[j] == b && xs[j] == Some(1.0);
    assert forall m :: j < m < i + 1 && keys[m] == b ==> xs[m].None?;
    var r := LastPresent(keys, xs, b, i + 1);
    assert r.Some?;
    var j' :| 0 <= j' < i + 1 && keys[j'] == b && xs[j'] == r
      && forall m :: j' < m < i + 1 && keys[m] == b ==> xs[m].None?;
    LatestIsUnique(keys, xs, b, i + 1, j, j');
  }

  lemma LatestFlagWitness(rows: seq<PanelRow>, i: nat, keys: seq<int>, xs: seq<Option<real>>)
    requires i < |rows| && keys == Banks(rows) && xs == Column(rows, Flag)
    requires LastPresent(keys, xs, rows[i].bank, i + 1) == Some(1.0)
    ensures LatestFlagIsOne(rows, i)
  {
    var b := rows[i].bank;
    var j :| 0 <= j < i + 1 && keys[j] == b && xs[j] == Some(1.0)
      && forall m :: j < m < i + 1 && keys[m] == b ==> xs[m].None?;
    assert rows[j].bank == b && Cell(rows[j].cells, Flag) == Some(1.0);
    assert forall m :: j < m <= i && rows[m].bank == b ==> Cell(rows[m].cells, Flag).None?;
  }

  /** `np.where(last_flag.fillna(0) == 1, 1, 0)` on the ffilled flag. */
  function FlagAsOfValue(rows: seq<PanelRow>, i: nat): (v: real)
    requires i < |rows|
    ensures v == 1.0 <==> LatestFlagIsOne(rows, i)
    ensures v == 0.0 || v == 1.0
  {
    LastPresentIsLatest(rows, i);
    if LastPresent(Banks(rows), Column(rows, Flag), rows[i].bank, i + 1) == Some(1.0) then 1.0 else 0.0
  }

  /** Lines 73-75 on the sorted table: `small_buz_lending_flag_asof` is 1
      exactly when the bank's latest present flag so far is 1, and the raw
      flag column is dropped. */
  function WithFlagAsOf(rows: seq<PanelRow>): (r: seq<PanelRow>)
    ensures |r| == |rows|
    ensures forall i :: 0 <= i < |rows| ==> r[i].(cells := rows[i].cells) == rows[i]
    ensures forall i :: 0 <= i < |rows| ==> Cell(r[i].cells, FlagAsOf) == Some(if LatestFlagIsOne(rows, i) then 1.0 else 0.0)
    ensures forall i :: 0 <= i < |rows| ==> Cell(r[i].cells, Flag).None?
    ensures forall i, n :: 0 <= i < |rows| && n != Flag && n != FlagAsOf ==> Cell(r[i].cells, n) == Cell(rows[i].cells, n)
  {
    seq(|rows|, i requires 0 <= i < |rows| =>
      rows[i].(cells := SetCell(SetCell(rows[i].cells, FlagAsOf, Some(FlagAsOfValue(rows, i))), Flag, None)))
  }

  // ---------------------------------------------------------------------------
  // Masks (lines 59-62, 78, 82-90, 100-103, 139-143)
  // ---------------------------------------------------------------------------

  predicate RatesPresent(r: PanelRow)
  {
    Cell(r.cells, CallReport.RateOnDeposit).Some? && Cell(r.cells, CallReport.RateOnInterestBearing).Some?
  }

  predicate InstrumentAvailable(r: PanelRow)
  {
    Cell(r.cells, SophisticationZ).Some?
  }

  /** `is_commercial_bank`: 1 exactly for BKCLASS N, NM or SM; a missing
      BKCLASS is not in the set. */
  function CommercialFlag(bkclass: Option<string>): (v: real)
    ensures v == 1.0 <==> bkclass.Some? && bkclass.value in CommercialClasses
    ensures v == 0.0 || v == 1.0
  {
    if bkclass.Some? && bkclass.value in CommercialClasses then 1.0 else 0.0
  }

  /** `base_mask` (line 90), with the corrected policy window. */
  predicate InBase(r: PanelRow)
  {
    RatesPresent(r) && InstrumentAvailable(r) && CommercialFlag(r.bkclass) == 1.0 && InWindow(r.date)
  }

  /** `df.loc[base_mask, c]`, missing outside the base sample. */
  function BaseColumn(rows: seq<PanelRow>, c: string): (r: seq<Option<real>>)
    ensures |r| == |rows|
    ensures forall i :: 0 <= i < |rows| ==> r[i] == if InBase(rows[i]) then Cell(rows[i].cells, c) else None
  {
    seq(|rows|, i requires 0 <= i < |rows| => if InBase(rows[i]) then Cell(rows[i].cells, c) else None)
  }

  /** `df.loc[base_mask, c].dropna()`: the present values of `c` on the rows
      of the base sample, in table order, one per such row: value `j` is
      the cell of the `j`-th such row. */
  function InSample(rows: seq<PanelRow>, c: string): (r: seq<real>)
    ensures |r| == |Positions(BaseColumn(rows, c), IsPresent)|
    ensures forall j :: 0 <= j < |r| ==>
              var i := Positions(BaseColumn(rows, c), IsPresent)[j];
              i < |rows| && InBase(rows[i]) && Cell(rows[i].cells, c) == Some(r[j])
    ensures forall i :: 0 <= i < |rows| && InBase(rows[i]) && Cell(rows[i].cells, c).Some? ==>
              i in Positions(BaseColumn(rows, c), IsPresent)
    ensures r == [] <==> forall i :: 0 <= i < |rows| && InBase(rows[i]) ==> Cell(rows[i].cells, c).None?
  {
    var xs := BaseColumn(rows, c);
    assert forall i :: 0 <= i < |rows| ==> (xs[i].None? <==> !InBase(rows[i]) || Cell(rows[i].cells, c).None?);
    assert forall i :: 0 <= i < |rows| && InBase(rows[i]) && Cell(rows[i].cells, c).Some? ==> IsPresent(xs[i]);
    DropMissing(xs)
  }

  predicate SameColumn(a: seq<PanelRow>, b: seq<PanelRow>, c: string)
    requires |a| == |b|
  {
    forall i :: 0 <= i < |a| ==> Cell(a[i].cells, c) == Cell(b[i].cells, c)
  }

  /** Two tables that agree on every row's base-mask inputs and on column `c`
      have the same in-sample series for `c`. */
  lemma SampleUnchanged(a: seq<PanelRow>, b: seq<PanelRow>, c: string)
    requires |a| == |b|
    requires forall i :: 0 <= i < |a| ==> a[i].(cells := b[i].cells) == b[i]
    requires SameColumn(a, b, CallReport.RateOnDeposit) && SameColumn(a, b, CallReport.RateOnInterestBearing)
    requires SameColumn(a, b, SophisticationZ) && SameColumn(a, b, c)
    ensures InSample(a, c) == InSample(b, c)
  {
    forall i | 0 <= i < |a|
      ensures BaseColumn(a, c)[i] == BaseColumn(b, c)[i]
    {
      assert a[i].bkclass == b[i].bkclass && a[i].date == b[i].date;
      assert InBase(a[i]) == InBase(b[i]);
    }
    assert BaseColumn(a, c) == BaseColumn(b, c);
  }

  /** The 0.5% and 99.5% quantiles of a sample; none for an empty one, where
      pandas gives NaN and no comparison with it holds. */
  function Bounds(sample: seq<real>, quantile: (seq<real>, real) -> real): Option<(real, real)>
  {
    if sample == [] then None else Some((quantile(sample, QLow), quantile(sample, QHigh)))
  }

  /** `low_dep`, `high_dep`, `low_ib`, `high_ib` (lines 96-99). */
  datatype RateBounds = RateBounds(dep: Option<(real, real)>, ib: Option<(real, real)>)

  function RateRanges(rows: seq<PanelRow>, quantile: (seq<real>, real) -> real): RateBounds
  {
    RateBounds(Bounds(InSample(rows, CallReport.RateOnDeposit), quantile),
               Bounds(InSample(rows, CallReport.RateOnInterestBearing), quantile))
  }

  /** `(x >= lo) & (x <= hi)`: false for a missing value or bound. */
  predicate Within(x: Option<real>, b: Option<(real, real)>)
  {
    x.Some? && b.Some? && b.value.0 <= x.value <= b.value.1
  }

  /** `mask_rate_range` (lines 100-103). */
  predicate InRateRange(r: PanelRow, b: RateBounds)
  {
    Within(Cell(r.cells, CallReport.RateOnDeposit), b.dep) && Within(Cell(r.cells, CallReport.RateOnInterestBearing), b.ib)
  }

  /** `x.between(-Z_LIMIT, Z_LIMIT)`: both ends included, missing excluded. */
  predicate ZWithin(x: Option<real>)
  {
    x.Some? && -ZLimit <= x.value <= ZLimit
  }

  /** `mask_z_scores` (lines 139-143). */
  predicate ZScoresWithin(r: PanelRow)
  {
    ZWithin(Cell(r.cells, SophisticationZ)) && ZWithin(Cell(r.cells, HhiZ)) && ZWithin(Cell(r.cells, DensityZ))
  }

  /** `all_masks` (line 146). */
  predicate Survives(r: PanelRow, b: RateBounds)
  {
    InBase(r) && InRateRange(r, b) && ZScoresWithin(r)
  }

  /** `df[all_masks]`: the surviving rows, in table order, each once: row
      `j` is the `j`-th surviving row. */
  function Screen(rows: seq<PanelRow>, b: RateBounds): (r: seq<PanelRow>)
    ensures |r| == |Positions(rows, AllMasks(b))| <= |rows|
    ensures forall j :: 0 <= j < |r| ==> r[j] == rows[Positions(rows, AllMasks(b))[j]]
    ensures forall j :: 0 <= j < |r| ==> Survives(r[j], b) && r[j] in rows
    ensures forall i :: 0 <= i < |rows| && Survives(rows[i], b) ==> i in Positions(rows, AllMasks(b)) && rows[i] in r
  {
    Filter(rows, AllMasks(b))
  }

  function AllMasks(b: RateBounds): PanelRow -> bool
  {
    (x: PanelRow) => Survives(x, b)
  }

  /** The masks read none of the added columns. */
  lemma SurvivesExtends(a: PanelRow, b: PanelRow, bounds: RateBounds)
    requires Extends(a, b)
    ensures Survives(a, bounds) == Survives(b, bounds)
  {
    assert a.bkclass == b.bkclass && a.date == b.date;
    assert Cell(a.cells, CallReport.RateOnDeposit) == Cell(b.cells, CallReport.RateOnDeposit);
    assert Cell(a.cells, CallReport.RateOnInterestBearing) == Cell(b.cells, CallReport.RateOnInterestBearing);
    assert Cell(a.cells, SophisticationZ) == Cell(b.cells, SophisticationZ);
    assert Cell(a.cells, HhiZ) == Cell(b.cells, HhiZ);
    assert Cell(a.cells, DensityZ) == Cell(b.cells, DensityZ);
  }

  // ---------------------------------------------------------------------------
  // Clipping the growth variables (lines 129-136)
  // ---------------------------------------------------------------------------

  /** `df[c] = df[c].clip(lower=lo, upper=hi)` on every row. */
  function ClipColumn(rows: seq<PanelRow>, c: string, lo: real, hi: real): (r: seq<PanelRow>)
    ensures |r| == |rows|
    ensures forall i :: 0 <= i < |rows| ==> r[i].(cells := rows[i].cells) == rows[i]
    ensures forall i :: 0 <= i < |rows| ==> Cell(r[i].cells, c) == ClipCell(Cell(rows[i].cells, c), lo, hi)
    ensures forall i, n :: 0 <= i < |rows| && n != c ==> Cell(r[i].cells, n) == Cell(rows[i].cells, n)
  {
    seq(|rows|, i requires 0 <= i < |rows| => rows[i].(cells := SetCell(rows[i].cells, c, ClipCell(Cell(rows[i].cells, c), lo, hi))))
  }

  /** `y` is `x` after the clipping step for one column: untouched when the
      in-sample series was empty, else clipped into the bounds. */
  predicate Winsorized(y: Option<real>, x: Option<real>, b: Option<(real, real)>)
  {
    match b
    case None => y == x
    case Some(lh) => IsClipped(y, x, lh.0, lh.1)
  }

  /** What the loop over `winsor_vars` has done after its first `k` columns. */
  ghost predicate WinsorizedUpTo(rows: seq<PanelRow>, out: seq<PanelRow>, k: nat, quantile: (seq<real>, real) -> real)
    requires k <= |WinsorColumns|
  {
    && |out| == |rows|
    && (forall i :: 0 <= i < |rows| ==> out[i].(cells := rows[i].cells) == rows[i])
    && (forall i, c :: 0 <= i < |rows| && c !in WinsorColumns[..k] ==> Cell(out[i].cells, c) == Cell(rows[i].cells, c))
    && (forall i, c :: 0 <= i < |rows| && c in WinsorColumns[..k] ==>
          Winsorized(Cell(out[i].cells, c), Cell(rows[i].cells, c), Bounds(InSample(rows, c), quantile)))
  }

  /** One pass of the loop body. */
  function ClipStep(rows: seq<PanelRow>, c: string, quantile: (seq<real>, real) -> real): seq<PanelRow>
  {
    var sample := InSample(rows, c);
    if sample != [] then ClipColumn(rows, c, quantile(sample, QLow), quantile(sample, QHigh)) else rows
  }

  /** A column that is not a growth variable is not clipped at any point of the loop. */
  lemma KeptOutsidePrefix(out: seq<PanelRow>, rows: seq<PanelRow>, k: nat, n: string)
    requires |out| == |rows| && k <= |WinsorColumns| && n !in WinsorColumns
    requires forall i, c :: 0 <= i < |rows| && c !in WinsorColumns[..k] ==> Cell(out[i].cells, c) == Cell(rows[i].cells, c)
    ensures SameColumn(out, rows, n)
  {
    assert n !in WinsorColumns[..k];
  }

  /** The growth variables are five different columns, none of them read by
      the base-sample mask. */
  lemma WinsorColumnsApart(k: nat)
    requires k < |WinsorColumns|
    ensures WinsorColumns[k] !in WinsorColumns[..k]
    ensures CallReport.RateOnDeposit !in WinsorColumns && CallReport.RateOnInterestBearing !in WinsorColumns
    ensures SophisticationZ !in WinsorColumns
  {
  }

  /** The loop body keeps the loop's invariant: column `k` is clipped with
      bounds that, as no earlier pass touched it or the mask, are those of the
      table the loop started from. */
  lemma WinsorStep(rows: seq<PanelRow>, out: seq<PanelRow>, k: nat, quantile: (seq<real>, real) -> real)
    requires k < |WinsorColumns| && WinsorizedUpTo(rows, out, k, quantile)
    ensures WinsorizedUpTo(rows, ClipStep(out, WinsorColumns[k], quantile), k + 1, quantile)
  {
    var c := WinsorColumns[k];
    WinsorColumnsApart(k);
    KeptOutsidePrefix(out, rows, k, CallReport.RateOnDeposit);
    KeptOutsidePrefix(out, rows, k, CallReport.RateOnInterestBearing);
    KeptOutsidePrefix(out, rows, k, SophisticationZ);
    assert SameColumn(out, rows, c);
    SampleUnchanged(out, rows, c);
    var next := ClipStep(out, c, quantile);
    ClipStepMeets(out, c, quantile);
    var done := WinsorColumns[..k + 1];
    assert done == WinsorColumns[..k] + [c];
    forall i, d | 0 <= i < |rows| && d !in done
      ensures Cell(next[i].cells, d) == Cell(rows[i].cells, d)
    {
      assert d != c && d !in WinsorColumns[..k];
    }
    forall i, d | 0 <= i < |rows| && d in done
      ensures Winsorized(Cell(next[i].cells, d), Cell(rows[i].cells, d), Bounds(InSample(rows, d), quantile))
    {
      if d != c {
        assert d in WinsorColumns[..k];
      }
    }
  }

  /** One pass clips column `c` with its own sample's bounds and changes nothing else. */
  lemma ClipStepMeets(rows: seq<PanelRow>, c: string, quantile: (seq<real>, real) -> real)
    ensures |ClipStep(rows, c, quantile)| == |rows|
    ensures forall i :: 0 <= i < |rows| ==> ClipStep(rows, c, quantile)[i].(cells := rows[i].cells) == rows[i]
    ensures forall i, n :: 0 <= i < |rows| && n != c ==> Cell(ClipStep(rows, c, quantile)[i].cells, n) == Cell(rows[i].cells, n)
    ensures forall i :: 0 <= i < |rows| ==>
              Winsorized(Cell(ClipStep(rows, c, quantile)[i].cells, c), Cell(rows[i].cells, c), Bounds(InSample(rows, c), quantile))
  {
  }

  /** The loop over `winsor_vars`. Every row is clipped, not only the rows of
      the base sample, into bounds taken from the base sample alone; a column
      with no value in the sample (an absent column has none) is left as it
      is. The bounds of each column are those of the table the loop starts
      from, because clipping one column changes no other column or mask. */
  method Winsorize(rows: seq<PanelRow>, quantile: (seq<real>, real) -> real) returns (out: seq<PanelRow>)
    ensures |out| == |rows|
    ensures forall i :: 0 <= i < |rows| ==> out[i].(cells := rows[i].cells) == rows[i]
    ensures forall i, c :: 0 <= i < |rows| && c !in WinsorColumns ==> Cell(out[i].cells, c) == Cell(rows[i].cells, c)
    ensures forall i, c :: 0 <= i < |rows| && c in WinsorColumns ==>
              Winsorized(Cell(out[i].cells, c), Cell(rows[i].cells, c), Bounds(InSample(rows, c), quantile))
  {
    out := rows;
    for k := 0 to |WinsorColumns|
      invariant WinsorizedUpTo(rows, out, k, quantile)
    {
      var c := WinsorColumns[k];
      WinsorStep(rows, out, k, quantile);
      var sample := InSample(out, c);
      if sample != [] {
        out := ClipColumn(out, c, quantile(sample, QLow), quantile(sample, QHigh));
      }
    }
    assert WinsorColumns[..|WinsorColumns|] == WinsorColumns;
  }

  // ---------------------------------------------------------------------------
  // Columns added to the screened panel (lines 151-165, 172)
  // ---------------------------------------------------------------------------

  /** `min()` of a column of texts. */
  function EarliestDate(ds: seq<string>): (r: string)
    requires ds != []
    ensures r in ds
    ensures forall j :: 0 <= j < |ds| ==> TextLeq(r, ds[j])
  {
    if |ds| == 1 then
      LexTotal(Codes(ds[0]), Codes(ds[0]));
      ds[0]
    else
      var m := EarliestDate(ds[1..]);
      var r := if TextLeq(ds[0], m) then ds[0] else m;
      EarliestStep(ds, m, r);
      r
  }

  lemma EarliestStep(ds: seq<string>, m: string, r: string)
    requires |ds| > 1 && m in ds[1..] && forall j :: 0 <= j < |ds| - 1 ==> TextLeq(m, ds[1..][j])
    requires r == if TextLeq(ds[0], m) then ds[0] else m
    ensures r in ds && forall j :: 0 <= j < |ds| ==> TextLeq(r, ds[j])
  {
    LexTotal(Codes(ds[0]), Codes(m));
    LexTotal(Codes(ds[0]), Codes(ds[0]));
    forall j | 0 <= j < |ds|
      ensures TextLeq(r, ds[j])
    {
      if j > 0 {
        assert ds[j] == ds[1..][j - 1];
        if r == ds[0] {
          LexTransitive(Codes(ds[0]), Codes(m), Codes(ds[j]));
        }
      }
    }
  }

  /** The bank has a row on the earliest Date of the panel. */
  ghost predicate OnEarliestDate(banks: seq<int>, dates: seq<string>, b: int)
    requires |banks| == |dates|
  {
    dates != [] && exists j :: 0 <= j < |dates| && banks[j] == b && dates[j] == EarliestDate(dates)
  }

  /** `df.groupby('Bank ID')['Date'].transform('min')` for bank `b`. */
  function BankEarliestDate(rows: seq<PanelRow>, b: int): string
    requires exists i :: 0 <= i < |rows| && rows[i].bank == b
  {
    var mine := Filter(rows, (r: PanelRow) => r.bank == b);
    var i :| 0 <= i < |rows| && rows[i].bank == b;
    assert rows[i] in mine;
    EarliestDate(Dates(mine))
  }

  /** A bank's earliest Date is the panel's earliest exactly when the bank
      has a row on that date. */
  lemma BankEarliestMeaning(rows: seq<PanelRow>, b: int)
    requires exists i :: 0 <= i < |rows| && rows[i].bank == b
    ensures BankEarliestDate(rows, b) == EarliestDate(Dates(rows)) <==> OnEarliestDate(Banks(rows), Dates(rows), b)
  {
    if OnEarliestDate(Banks(rows), Dates(rows), b) {
      PresentBankStartsFirst(rows, b);
    }
    if BankEarliestDate(rows, b) == EarliestDate(Dates(rows)) {
      FirstStartIsPresent(rows, b);
    }
  }

  lemma PresentBankStartsFirst(rows: seq<PanelRow>, b: int)
    requires exists i :: 0 <= i < |rows| && rows[i].bank == b
    requires OnEarliestDate(Banks(rows), Dates(rows), b)
    ensures BankEarliestDate(rows, b) == EarliestDate(Dates(rows))
  {
    var mine := Filter(rows, (r: PanelRow) => r.bank == b);
    var first := EarliestDate(Dates(rows));
    var own := BankEarliestDate(rows, b);
    assert own == EarliestDate(Dates(mine));
    OwnDateInPanel(rows, mine, own);
    EarliestBelow(Dates(rows), own);
    var j :| 0 <= j < |rows| && rows[j].bank == b && rows[j].date == first;
    assert rows[j] in mine;
    RowDateInDates(mine, rows[j]);
    EarliestBelow(Dates(mine), first);
    LexAntisymmetric(Codes(own), Codes(first));
    CodesInjective(own, first);
  }

  /** A Date of some of the rows is a Date of the panel. */
  lemma OwnDateInPanel(rows: seq<PanelRow>, mine: seq<PanelRow>, d: string)
    requires forall k :: 0 <= k < |mine| ==> mine[k] in rows
    requires d in Dates(mine)
    ensures d in Dates(rows)
  {
    var k :| 0 <= k < |mine| && Dates(mine)[k] == d;
    RowDateInDates(rows, mine[k]);
  }

  lemma RowDateInDates(rows: seq<PanelRow>, r: PanelRow)
    requires r in rows
    ensures r.date in Dates(rows)
  {
    var a :| 0 <= a < |rows| && rows[a] == r;
    assert Dates(rows)[a] == r.date;
  }

  lemma EarliestBelow(ds: seq<string>, d: string)
    requires d in ds
    ensures TextLeq(EarliestDate(ds), d)
  {
    var a :| 0 <= a < |ds| && ds[a] == d;
  }

  lemma FirstStartIsPresent(rows: seq<PanelRow>, b: int)
    requires exists i :: 0 <= i < |rows| && rows[i].bank == b
    requires BankEarliestDate(rows, b) == EarliestDate(Dates(rows))
    ensures OnEarliestDate(Banks(rows), Dates(rows), b)
  {
    var mine := Filter(rows, (r: PanelRow) => r.bank == b);
    var own := BankEarliestDate(rows, b);
    assert own == EarliestDate(Dates(mine));
    var k :| 0 <= k < |mine| && mine[k].date == own;
    assert mine[k] in rows && mine[k].bank == b;
    var a :| 0 <= a < |rows| && rows[a] == mine[k];
    assert Banks(rows)[a] == b && Dates(rows)[a] == EarliestDate(Dates(rows));
  }

  /** `in_first_quarter` (lines 151-152): 1 exactly for the banks that have a
      row on the earliest Date left in the panel. */
  function WithFirstQuarter(rows: seq<PanelRow>): (r: seq<PanelRow>)
    ensures |r| == |rows|
    ensures KeepsOthers(r, rows, {FirstQuarter})
    ensures forall i :: 0 <= i < |rows| ==>
              Cell(r[i].cells, FirstQuarter) == Some(if OnEarliestDate(Banks(rows), Dates(rows), rows[i].bank) then 1.0 else 0.0)
  {
    seq(|rows|, i requires 0 <= i < |rows| =>
      rows[i].(cells := SetCell(rows[i].cells, FirstQuarter, Some(FirstQuarterFlag(rows, i)))))
  }

  /** `(transform('min') == first_quarter_date).astype(int)` at row `i`. */
  function FirstQuarterFlag(rows: seq<PanelRow>, i: nat): (v: real)
    requires i < |rows|
    ensures v == if OnEarliestDate(Banks(rows), Dates(rows), rows[i].bank) then 1.0 else 0.0
  {
    BankEarliestMeaning(rows, rows[i].bank);
    if BankEarliestDate(rows, rows[i].bank) == EarliestDate(Dates(rows)) then 1.0 else 0.0
  }

  /** `np.where(in_first_quarter == 1, cum, np.nan)`, where `cum` is the
      bank's `fillna(0).cumsum()` of column `src` in table order. */
  function RunningSumCell(rows: seq<PanelRow>, i: nat, src: string): Option<real>
    requires i < |rows|
  {
    if Cell(rows[i].cells, FirstQuarter) == Some(1.0)
    then Some(GroupRunningSum(Banks(rows), Column(rows, src), rows[i].bank, i + 1))
    else None
  }

  /** Lines 156-165: the four running sums. */
  function WithRunningSums(rows: seq<PanelRow>): (r: seq<PanelRow>)
    ensures KeepsOthers(r, rows, CumTargets)
    ensures forall i, p :: 0 <= i < |rows| && p in CumColumns ==> Cell(r[i].cells, p.1) == RunningSumCell(rows, i, p.0)
  {
    seq(|rows|, i requires 0 <= i < |rows| => rows[i].(cells := RunningSumCells(rows, i)))
  }

  /** The cells of row `i` with its four running sums set. */
  function RunningSumCells(rows: seq<PanelRow>, i: nat): (c: Cells)
    requires i < |rows|
    ensures SameOutside(c, rows[i].cells, CumTargets)
    ensures forall p :: p in CumColumns ==> Cell(c, p.1) == RunningSumCell(rows, i, p.0)
  {
    var c0 := rows[i].cells;
    var c1 := SetCell(c0, CumColumns[0].1, RunningSumCell(rows, i, CumColumns[0].0));
    var c2 := SetCell(c1, CumColumns[1].1, RunningSumCell(rows, i, CumColumns[1].0));
    var c3 := SetCell(c2, CumColumns[2].1, RunningSumCell(rows, i, CumColumns[2].0));
    SetCell(c3, CumColumns[3].1, RunningSumCell(rows, i, CumColumns[3].0))
  }

  /** `large_bank`: 1 exactly when ASSET is present and above the threshold. */
  function LargeBankFlag(asset: Option<real>): (v: real)
    ensures v == 1.0 <==> asset.Some? && asset.value > AssetLargeThreshold
    ensures v == 0.0 || v == 1.0
  {
    if asset.Some? && asset.value > AssetLargeThreshold then 1.0 else 0.0
  }

  function WithLargeBank(rows: seq<PanelRow>): (r: seq<PanelRow>)
    ensures |r| == |rows|
    ensures KeepsOthers(r, rows, {LargeBank})
    ensures forall i :: 0 <= i < |rows| ==> Cell(r[i].cells, LargeBank) == Some(LargeBankFlag(Cell(rows[i].cells, Asset)))
  {
    seq(|rows|, i requires 0 <= i < |rows| =>
      rows[i].(cells := SetCell(rows[i].cells, LargeBank, Some(LargeBankFlag(Cell(rows[i].cells, Asset))))))
  }

  // ---------------------------------------------------------------------------
  // The whole screening
  // ---------------------------------------------------------------------------

  /** Rows that keep their bank and Date keep the table's order. */
  lemma SortedPositional(a: seq<PanelRow>, b: seq<PanelRow>)
    requires |a| == |b| && forall i :: 0 <= i < |a| ==> a[i].bank == b[i].bank && a[i].date == b[i].date
    requires SortedBy(a, PanelOrder)
    ensures SortedBy(b, PanelOrder)
  {
    forall i, j | 0 <= i < j < |b|
      ensures LexLeq(PanelOrder(b[i]), PanelOrder(b[j]))
    {
      assert PanelOrder(b[i]) == PanelOrder(a[i]) && PanelOrder(b[j]) == PanelOrder(a[j]);
    }
  }

  /** Filling, sorting and carrying the flag leave no loan change missing. */
  lemma FlaggedFilled(filled: seq<PanelRow>, sorted: seq<PanelRow>, flagged: seq<PanelRow>)
    requires forall i, c :: 0 <= i < |filled| && c in FillColumns ==> Cell(filled[i].cells, c).Some?
    requires multiset(sorted) == multiset(filled) && |flagged| == |sorted|
    requires forall i, n :: 0 <= i < |sorted| && n != Flag && n != FlagAsOf ==> Cell(flagged[i].cells, n) == Cell(sorted[i].cells, n)
    ensures forall i, c :: 0 <= i < |flagged| && c in FillColumns ==> Cell(flagged[i].cells, c).Some?
  {
    forall i, c | 0 <= i < |flagged| && c in FillColumns
      ensures Cell(flagged[i].cells, c).Some?
    {
      assert sorted[i] in multiset(filled);
      var k :| 0 <= k < |filled| && filled[k] == sorted[i];
      assert Cell(filled[k].cells, c).Some?;
      assert c != Flag && c != FlagAsOf;
    }
  }

  /** The clipping keeps every loan change present. */
  lemma PreparedFilled(flagged: seq<PanelRow>, prepared: seq<PanelRow>, quantile: (seq<real>, real) -> real)
    requires forall i, c :: 0 <= i < |flagged| && c in FillColumns ==> Cell(flagged[i].cells, c).Some?
    requires |prepared| == |flagged|
    requires forall i, c :: 0 <= i < |flagged| && c !in WinsorColumns ==> Cell(prepared[i].cells, c) == Cell(flagged[i].cells, c)
    requires forall i, c :: 0 <= i < |flagged| && c in WinsorColumns ==>
               Winsorized(Cell(prepared[i].cells, c), Cell(flagged[i].cells, c), Bounds(InSample(flagged, c), quantile))
    ensures forall i, c :: 0 <= i < |prepared| && c in FillColumns ==> Cell(prepared[i].cells, c).Some?
  {
    forall i, c | 0 <= i < |prepared| && c in FillColumns
      ensures Cell(prepared[i].cells, c).Some?
    {
      if c in WinsorColumns {
        assert Winsorized(Cell(prepared[i].cells, c), Cell(flagged[i].cells, c), Bounds(InSample(flagged, c), quantile));
      }
    }
  }

  /** The rate bounds, taken before the clipping, are those of the clipped table. */
  lemma BoundsBeforeClipping(flagged: seq<PanelRow>, prepared: seq<PanelRow>, quantile: (seq<real>, real) -> real)
    requires |prepared| == |flagged|
    requires forall i :: 0 <= i < |flagged| ==> prepared[i].(cells := flagged[i].cells) == flagged[i]
    requires forall i, c :: 0 <= i < |flagged| && c !in WinsorColumns ==> Cell(prepared[i].cells, c) == Cell(flagged[i].cells, c)
    ensures RateRanges(prepared, quantile) == RateRanges(flagged, quantile)
  {
    assert CallReport.RateOnDeposit !in WinsorColumns && CallReport.RateOnInterestBearing !in WinsorColumns;
    assert SophisticationZ !in WinsorColumns;
    assert SameColumn(prepared, flagged, CallReport.RateOnDeposit);
    assert SameColumn(prepared, flagged, CallReport.RateOnInterestBearing);
    assert SameColumn(prepared, flagged, SophisticationZ);
    SampleUnchanged(prepared, flagged, CallReport.RateOnDeposit);
    SampleUnchanged(prepared, flagged, CallReport.RateOnInterestBearing);
  }

  /** `in_first_quarter` is 1 exactly on the rows of banks present on the
      table's earliest Date, and 0 on the others. */
  ghost predicate FirstQuarterMarked(out: seq<PanelRow>)
  {
    forall i :: 0 <= i < |out| ==>
      Cell(out[i].cells, FirstQuarter) == Some(if OnEarliestDate(Banks(out), Dates(out), out[i].bank) then 1.0 else 0.0)
  }

  /** Each `cum_d_*` column holds, for a bank present on the earliest Date,
      the sum of the bank's changes up to and including the row (missing
      changes counting 0), and is missing for every other bank. */
  ghost predicate RunningSumsAccumulate(out: seq<PanelRow>)
  {
    forall i, p :: 0 <= i < |out| && p in CumColumns ==>
      Cell(out[i].cells, p.1)
      == if OnEarliestDate(Banks(out), Dates(out), out[i].bank)
         then Some(GroupRunningSum(Banks(out), Column(out, p.0), out[i].bank, i + 1)) else None
  }

  /** `large_bank` is 1 exactly where ASSET is present and above the threshold. */
  predicate LargeBanksMarked(out: seq<PanelRow>)
  {
    forall i :: 0 <= i < |out| ==> Cell(out[i].cells, LargeBank) == Some(LargeBankFlag(Cell(out[i].cells, Asset)))
  }

  /** Changing cells keeps the banks and the Dates. */
  lemma SameKeys(a: seq<PanelRow>, b: seq<PanelRow>, changed: set<string>)
    requires KeepsOthers(a, b, changed)
    ensures Banks(a) == Banks(b) && Dates(a) == Dates(b)
  {
    assert forall i :: 0 <= i < |a| ==> a[i].bank == b[i].bank && a[i].date == b[i].date;
  }

  /** The first-quarter flag, computed on the screened rows, reads the same
      on the final table: the later steps change neither the banks, the
      Dates nor the flag. */
  lemma FirstQuarterCarried(kept: seq<PanelRow>, fq: seq<PanelRow>, out: seq<PanelRow>)
    requires KeepsOthers(fq, kept, {FirstQuarter}) && KeepsOthers(out, fq, {LargeBank} + CumTargets)
    requires forall i :: 0 <= i < |fq| ==>
               Cell(fq[i].cells, FirstQuarter) == Some(if OnEarliestDate(Banks(kept), Dates(kept), kept[i].bank) then 1.0 else 0.0)
    ensures FirstQuarterMarked(out)
  {
    SameKeys(fq, kept, {FirstQuarter});
    SameKeys(out, fq, {LargeBank} + CumTargets);
    assert FirstQuarter !in {LargeBank} + CumTargets;
    forall i | 0 <= i < |out|
      ensures Cell(out[i].cells, FirstQuarter) == Cell(fq[i].cells, FirstQuarter)
    {
      assert SameOutside(out[i].cells, fq[i].cells, {LargeBank} + CumTargets);
    }
  }

  /** The running sums, computed on the flagged rows, read the same on the
      final table, where the flag says whether the bank was present on the
      earliest Date. */
  lemma RunningSumsCarried(fq: seq<PanelRow>, sums: seq<PanelRow>, out: seq<PanelRow>)
    requires KeepsOthers(sums, fq, CumTargets) && KeepsOthers(out, sums, {LargeBank})
    requires forall i :: 0 <= i < |out| ==>
               Cell(fq[i].cells, FirstQuarter) == Some(if OnEarliestDate(Banks(out), Dates(out), out[i].bank) then 1.0 else 0.0)
    requires forall i, p :: 0 <= i < |sums| && p in CumColumns ==> Cell(sums[i].cells, p.1) == RunningSumCell(fq, i, p.0)
    ensures RunningSumsAccumulate(out)
  {
    SameKeys(sums, fq, CumTargets);
    SameKeys(out, sums, {LargeBank});
    SourcesCarried(fq, sums, out);
    TargetsCarried(sums, out);
    forall i, p | 0 <= i < |out| && p in CumColumns
      ensures Cell(out[i].cells, p.1)
              == if OnEarliestDate(Banks(out), Dates(out), out[i].bank)
                 then Some(GroupRunningSum(Banks(out), Column(out, p.0), out[i].bank, i + 1)) else None
    {
      CumCarried(fq, out, i, p.0, Cell(out[i].cells, p.1), OnEarliestDate(Banks(out), Dates(out), out[i].bank));
    }
  }

  /** The columns the running sums read are the same on the final table. */
  lemma SourcesCarried(fq: seq<PanelRow>, sums: seq<PanelRow>, out: seq<PanelRow>)
    requires KeepsOthers(sums, fq, CumTargets) && KeepsOthers(out, sums, {LargeBank})
    ensures forall p :: p in CumColumns ==> Column(out, p.0) == Column(fq, p.0)
  {
    forall p | p in CumColumns
      ensures Column(out, p.0) == Column(fq, p.0)
    {
      CumColumnsDistinct(p);
      ColumnCarried(fq, sums, out, p.0);
    }
  }

  /** The running sums themselves are untouched by the large-bank flag. */
  lemma TargetsCarried(sums: seq<PanelRow>, out: seq<PanelRow>)
    requires KeepsOthers(out, sums, {LargeBank})
    ensures forall i, p :: 0 <= i < |out| && p in CumColumns ==> Cell(out[i].cells, p.1) == Cell(sums[i].cells, p.1)
  {
    forall i, p | 0 <= i < |out| && p in CumColumns
      ensures Cell(out[i].cells, p.1) == Cell(sums[i].cells, p.1)
    {
      CumColumnsDistinct(p);
      assert SameOutside(out[i].cells, sums[i].cells, {LargeBank});
    }
  }

  /** A column that neither step assigns is the same after both. */
  lemma ColumnCarried(fq: seq<PanelRow>, sums: seq<PanelRow>, out: seq<PanelRow>, src: string)
    requires KeepsOthers(sums, fq, CumTargets) && KeepsOthers(out, sums, {LargeBank})
    requires src !in CumTargets && src != LargeBank
    ensures Column(out, src) == Column(fq, src)
  {
    forall k | 0 <= k < |out|
      ensures Cell(out[k].cells, src) == Cell(fq[k].cells, src)
    {
      assert SameOutside(out[k].cells, sums[k].cells, {LargeBank});
      assert SameOutside(sums[k].cells, fq[k].cells, CumTargets);
    }
  }

  lemma CumCarried(fq: seq<PanelRow>, out: seq<PanelRow>, i: nat, src: string, v: Option<real>, e: bool)
    requires i < |fq| == |out| && Banks(out) == Banks(fq) && Column(out, src) == Column(fq, src)
    requires v == RunningSumCell(fq, i, src)
    requires Cell(fq[i].cells, FirstQuarter) == Some(if e then 1.0 else 0.0)
    ensures v == if e then Some(GroupRunningSum(Banks(out), Column(out, src), out[i].bank, i + 1)) else None
  {
    assert out[i].bank == Banks(out)[i] == Banks(fq)[i] == fq[i].bank;
  }

  /** No accumulated column is an added one. */
  lemma CumColumnsDistinct(p: (string, string))
    requires p in CumColumns
    ensures p.1 in CumTargets && p.1 != LargeBank && p.0 != LargeBank && p.0 !in CumTargets && p.0 != FirstQuarter
  {
  }

  /** Lines 59-136: the zero fill, the sort, the carried-forward flag, the
      rate bounds and the clipping, with the intermediate tables: `filled`
      is `df` with the five loan changes filled with zero (FillDeltas),
      `sorted` holds the same rows in (Bank ID, Date) order, `flagged` is
      `sorted` with the flag carried forward (WithFlagAsOf), and `prepared`
      is `flagged` with the growth variables clipped into the bounds of
      `flagged`'s own base sample (Winsorize). `bounds` are the rate bounds
      of lines 96-99, taken from `flagged`; the clipping does not change
      them. */
  method Prepare(df: seq<PanelRow>, quantile: (seq<real>, real) -> real)
    returns (prepared: seq<PanelRow>, bounds: RateBounds,
             ghost filled: seq<PanelRow>, ghost sorted: seq<PanelRow>, ghost flagged: seq<PanelRow>)
    ensures FilledUpTo(df, filled, FillColumns)
    ensures multiset(sorted) == multiset(filled) && SortedBy(sorted, PanelOrder)
    ensures flagged == WithFlagAsOf(sorted)
    ensures WinsorizedUpTo(flagged, prepared, |WinsorColumns|, quantile)
    ensures bounds == RateRanges(flagged, quantile) && bounds == RateRanges(prepared, quantile)
    ensures |prepared| == |df|
    ensures SortedBy(prepared, PanelOrder)
    ensures forall i, c :: 0 <= i < |prepared| && c in FillColumns ==> Cell(prepared[i].cells, c).Some?
  {
    var f := FillDeltas(df);
    var s := SortBy(f, PanelOrder);
    var g := WithFlagAsOf(s);
    filled, sorted, flagged := f, s, g;
    SortedPositional(s, g);
    FlaggedFilled(f, s, g);
    bounds := RateRanges(g, quantile);
    prepared := Winsorize(g, quantile);
    assert WinsorColumns[..|WinsorColumns|] == WinsorColumns;
    SortedPositional(g, prepared);
    PreparedFilled(g, prepared, quantile);
    BoundsBeforeClipping(g, prepared, quantile);
  }

  /** Lines 151-172 on the screened rows, which are already in (Bank ID,
      Date) order, so the sort of line 155 leaves them as they are. */
  method AddColumns(kept: seq<PanelRow>) returns (out: seq<PanelRow>)
    requires SortedBy(kept, PanelOrder)
    ensures |out| == |kept|
    ensures forall i :: 0 <= i < |out| ==> Extends(out[i], kept[i])
    ensures SortedBy(out, PanelOrder)
    ensures FirstQuarterMarked(out)
    ensures RunningSumsAccumulate(out)
    ensures LargeBanksMarked(out)
  {
    var fq := WithFirstQuarter(kept);
    var sums := WithRunningSums(fq);
    out := WithLargeBank(sums);
    AddedColumnsMeaning(kept, fq, sums, out);
  }

  /** What the three added-column steps give, stated on the final table. */
  lemma AddedColumnsMeaning(kept: seq<PanelRow>, fq: seq<PanelRow>, sums: seq<PanelRow>, out: seq<PanelRow>)
    requires SortedBy(kept, PanelOrder)
    requires KeepsOthers(fq, kept, {FirstQuarter})
    requires forall i :: 0 <= i < |kept| ==>
               Cell(fq[i].cells, FirstQuarter) == Some(if OnEarliestDate(Banks(kept), Dates(kept), kept[i].bank) then 1.0 else 0.0)
    requires KeepsOthers(sums, fq, CumTargets)
    requires forall i, p :: 0 <= i < |fq| && p in CumColumns ==> Cell(sums[i].cells, p.1) == RunningSumCell(fq, i, p.0)
    requires KeepsOthers(out, sums, {LargeBank})
    requires forall i :: 0 <= i < |sums| ==> Cell(out[i].cells, LargeBank) == Some(LargeBankFlag(Cell(sums[i].cells, Asset)))
    ensures |out| == |kept|
    ensures forall i :: 0 <= i < |out| ==> Extends(out[i], kept[i])
    ensures SortedBy(out, PanelOrder)
    ensures FirstQuarterMarked(out)
    ensures RunningSumsAccumulate(out)
    ensures LargeBanksMarked(out)
  {
    AddedExtends(kept, fq, sums, out);
    AddedFirstQuarter(kept, fq, sums, out);
    AddedRunningSums(kept, fq, sums, out);
    AddedLargeBank(sums, out);
    SortedPositional(kept, out);
  }

  lemma AddedExtends(kept: seq<PanelRow>, fq: seq<PanelRow>, sums: seq<PanelRow>, out: seq<PanelRow>)
    requires KeepsOthers(fq, kept, {FirstQuarter})
    requires KeepsOthers(sums, fq, CumTargets)
    requires KeepsOthers(out, sums, {LargeBank})
    ensures |out| == |kept|
    ensures forall i :: 0 <= i < |out| ==> Extends(out[i], kept[i])
    ensures forall i :: 0 <= i < |out| ==> out[i].bank == kept[i].bank && out[i].date == kept[i].date
  {
    KeepsOthersTransitive(out, sums, fq, {LargeBank}, CumTargets);
    KeepsOthersTransitive(out, fq, kept, {LargeBank} + CumTargets, {FirstQuarter});
    assert {LargeBank} + CumTargets + {FirstQuarter} == AddedColumns;
  }

  lemma AddedFirstQuarter(kept: seq<PanelRow>, fq: seq<PanelRow>, sums: seq<PanelRow>, out: seq<PanelRow>)
    requires KeepsOthers(fq, kept, {FirstQuarter})
    requires forall i :: 0 <= i < |kept| ==>
               Cell(fq[i].cells, FirstQuarter) == Some(if OnEarliestDate(Banks(kept), Dates(kept), kept[i].bank) then 1.0 else 0.0)
    requires KeepsOthers(sums, fq, CumTargets)
    requires KeepsOthers(out, sums, {LargeBank})
    ensures FirstQuarterMarked(out)
  {
    KeepsOthersTransitive(out, sums, fq, {LargeBank}, CumTargets);
    FirstQuarterCarried(kept, fq, out);
  }

  lemma AddedRunningSums(kept: seq<PanelRow>, fq: seq<PanelRow>, sums: seq<PanelRow>, out: seq<PanelRow>)
    requires KeepsOthers(fq, kept, {FirstQuarter})
    requires forall i :: 0 <= i < |kept| ==>
               Cell(fq[i].cells, FirstQuarter) == Some(if OnEarliestDate(Banks(kept), Dates(kept), kept[i].bank) then 1.0 else 0.0)
    requires KeepsOthers(sums, fq, CumTargets)
    requires forall i, p :: 0 <= i < |fq| && p in CumColumns ==> Cell(sums[i].cells, p.1) == RunningSumCell(fq, i, p.0)
    requires KeepsOthers(out, sums, {LargeBank})
    ensures RunningSumsAccumulate(out)
  {
    SameKeys(fq, kept, {FirstQuarter});
    SameKeys(sums, fq, CumTargets);
    SameKeys(out, sums, {LargeBank});
    forall i | 0 <= i < |out|
      ensures Cell(fq[i].cells, FirstQuarter) == Some(if OnEarliestDate(Banks(out), Dates(out), out[i].bank) then 1.0 else 0.0)
    {
      assert out[i].bank == sums[i].bank == fq[i].bank == kept[i].bank;
    }
    RunningSumsCarried(fq, sums, out);
  }

  lemma AddedLargeBank(sums: seq<PanelRow>, out: seq<PanelRow>)
    requires KeepsOthers(out, sums, {LargeBank})
    requires forall i :: 0 <= i < |sums| ==> Cell(out[i].cells, LargeBank) == Some(LargeBankFlag(Cell(sums[i].cells, Asset)))
    ensures LargeBanksMarked(out)
  {
    forall i | 0 <= i < |out|
      ensures Cell(out[i].cells, Asset) == Cell(sums[i].cells, Asset)
    {
      assert SameOutside(out[i].cells, sums[i].cells, {LargeBank});
    }
  }

  /** `main` from the zero fill to the large-bank flag, on the merged table
      `df`. `filled`, `sorted`, `flagged` and `prepared` are the tables of
      Prepare, `prepared` being the one the masks are applied to, with the
      rate bounds of `flagged`; `out` is the panel that is written: row `i`
      is the `i`-th row of `prepared` that passes every mask, extended by
      the added columns, and those mean what their names say: the
      first-quarter flag marks the banks present on the panel's earliest
      Date, the running sums accumulate each such bank's changes in (Bank
      ID, Date) order and are missing for other banks, and the large-bank
      flag marks ASSET above ten million. */
  method BuildPanel(df: seq<PanelRow>, quantile: (seq<real>, real) -> real)
    returns (prepared: seq<PanelRow>, out: seq<PanelRow>,
             ghost filled: seq<PanelRow>, ghost sorted: seq<PanelRow>, ghost flagged: seq<PanelRow>)
    ensures FilledUpTo(df, filled, FillColumns)
    ensures multiset(sorted) == multiset(filled) && SortedBy(sorted, PanelOrder)
    ensures flagged == WithFlagAsOf(sorted)
    ensures WinsorizedUpTo(flagged, prepared, |WinsorColumns|, quantile)
    ensures RateRanges(prepared, quantile) == RateRanges(flagged, quantile)
    ensures |prepared| == |df|
    ensures SortedBy(prepared, PanelOrder)
    ensures forall i, c :: 0 <= i < |prepared| && c in FillColumns ==> Cell(prepared[i].cells, c).Some?
    ensures |out| == |Screen(prepared, RateRanges(flagged, quantile))|
    ensures forall i :: 0 <= i < |out| ==> Extends(out[i], Screen(prepared, RateRanges(flagged, quantile))[i])
    ensures forall i :: 0 <= i < |out| ==> Survives(out[i], RateRanges(flagged, quantile))
    ensures SortedBy(out, PanelOrder)
    ensures FirstQuarterMarked(out)
    ensures RunningSumsAccumulate(out)
    ensures LargeBanksMarked(out)
  {
    var bounds;
    prepared, bounds, filled, sorted, flagged := Prepare(df, quantile);
    var kept := Screen(prepared, bounds);
    FilterSorted(prepared, AllMasks(bounds), PanelOrder);
    out := AddColumns(kept);
    forall i | 0 <= i < |out|
      ensures Survives(out[i], bounds)
    {
      SurvivesExtends(out[i], kept[i], bounds);
    }
  }
}
