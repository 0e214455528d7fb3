/** programs/rcon.py: the two balance-sheet (Schedule RC) extracts are
    stripped of exact duplicate rows, rcon2 is merged onto rcon1 by
    (rssd9001, rssd9050, rssd9999), and two derived columns replace their
    components: the small-business loan total and net fed funds bought. */
module Rcon {
  import opened Tables
  import opened Dedup
  import opened Joins

  /** One row of an rcon extract: bank (rssd9001), rssd9050, report date
      (rssd9999) and the line items by name. */
  datatype RconRow = RconRow(bank: int, agent: int, date: Date, items: Cells)

  function RconKey(r: RconRow): (int, int, Date)
  {
    (r.bank, r.agent, r.date)
  }

  /** `drop_duplicates()` with no subset compares whole rows. */
  function WholeRow(r: RconRow): RconRow
  {
    r
  }

  // ---------------------------------------------------------------------------
  // Exact-duplicate removal (lines 4-5)
  // ---------------------------------------------------------------------------

  function DropExactDuplicates(rows: seq<RconRow>): seq<RconRow>
  {
    DropDuplicates(rows, WholeRow)
  }

  /** Only rows identical in every column are removed: no two rows left are
      equal, and a row is left exactly when it was in the input. */
  lemma ExactDuplicatesRemoved(rows: seq<RconRow>)
    ensures forall i, j :: 0 <= i < j < |DropExactDuplicates(rows)| ==>
              DropExactDuplicates(rows)[i] != DropExactDuplicates(rows)[j]
    ensures forall r :: r in DropExactDuplicates(rows) <==> r in rows
  {
    var d := DropExactDuplicates(rows);
    DropDuplicatesSpec(rows, WholeRow);
    forall r | r in rows
      ensures r in d
    {
      var i :| 0 <= i < |rows| && rows[i] == r;
      assert HasKeyOf(d, WholeRow, WholeRow(rows[i]));
    }
  }

  // ---------------------------------------------------------------------------
  // The left merge (line 8)
  // ---------------------------------------------------------------------------

  /** The line items of a matched row, if any. */
  function RconItems(m: Option<RconRow>): Option<Cells>
  {
    if m.Some? then Some(m.value.items) else None
  }

  /** A matched rcon2 row adds its line items to the rcon1 row. */
  function MergeItems(pairs: seq<(RconRow, Option<RconRow>)>): (r: seq<RconRow>)
    ensures |r| == |pairs|
    ensures forall i :: 0 <= i < |pairs| ==> r[i].(items := pairs[i].0.items) == pairs[i].0
    ensures forall i :: 0 <= i < |pairs| ==> MergedCells(r[i].items, pairs[i].0.items, RconItems(pairs[i].1))
  {
    seq(|pairs|, i requires 0 <= i < |pairs| =>
      var (l, m) := pairs[i];
      l.(items := Merged(l.items, RconItems(m))))
  }

  function MergeExtracts(rcon1: seq<RconRow>, rcon2: seq<RconRow>): seq<RconRow>
  {
    MergeItems(LeftJoin(DropExactDuplicates(rcon1), DropExactDuplicates(rcon2), RconKey, RconKey))
  }

  /** Some row of `rows` has the key `k`. */
  ghost predicate HasRconKey(rows: seq<RconRow>, k: (int, int, Date))
  {
    exists j :: 0 <= j < |rows| && RconKey(rows[j]) == k
  }

  /** The merge keeps every rcon1 key, invents none, and loses no row. */
  lemma MergeKeepsEveryFiling(rcon1: seq<RconRow>, rcon2: seq<RconRow>)
    ensures |MergeExtracts(rcon1, rcon2)| >= |DropExactDuplicates(rcon1)|
    ensures forall i :: 0 <= i < |rcon1| ==> HasRconKey(MergeExtracts(rcon1, rcon2), RconKey(rcon1[i]))
    ensures forall j :: 0 <= j < |MergeExtracts(rcon1, rcon2)| ==> HasRconKey(rcon1, RconKey(MergeExtracts(rcon1, rcon2)[j]))
  {
    var d1 := DropExactDuplicates(rcon1);
    var d2 := DropExactDuplicates(rcon2);
    var joined := LeftJoin(d1, d2, RconKey, RconKey);
    var out := MergeExtracts(rcon1, rcon2);
    assert |out| == |joined|;
    ExactDuplicatesRemoved(rcon1);
    LeftJoinKeepsEveryLeftRow(d1, d2, RconKey, RconKey);
    LeftJoinRowsFromLeft(d1, d2, RconKey, RconKey);
    forall i | 0 <= i < |rcon1|
      ensures HasRconKey(out, RconKey(rcon1[i]))
    {
      assert rcon1[i] in d1;
      var k :| 0 <= k < |d1| && d1[k] == rcon1[i];
      var j :| 0 <= j < |joined| && joined[j].0 == d1[k];
      assert RconKey(out[j]) == RconKey(rcon1[i]);
    }
    forall j | 0 <= j < |out|
      ensures HasRconKey(rcon1, RconKey(out[j]))
    {
      assert joined[j].0 in d1;
      assert joined[j].0 in rcon1;
      var i :| 0 <= i < |rcon1| && rcon1[i] == joined[j].0;
    }
  }

  /** The row count is kept when the de-duplicated rcon2 has one row per
      key; exact-row de-duplication alone does not ensure that (see
      RepeatedKeyDuplicatesRows). */
  lemma MergeKeepsCountForUniqueKeys(rcon1: seq<RconRow>, rcon2: seq<RconRow>)
    requires UniqueKeys(DropExactDuplicates(rcon2), RconKey)
    ensures |MergeExtracts(rcon1, rcon2)| == |DropExactDuplicates(rcon1)|
    ensures forall i :: 0 <= i < |DropExactDuplicates(rcon1)| ==>
              RconKey(MergeExtracts(rcon1, rcon2)[i]) == RconKey(DropExactDuplicates(rcon1)[i])
  {
    LeftJoinUnique(DropExactDuplicates(rcon1), DropExactDuplicates(rcon2), RconKey, RconKey);
  }

  /** Two rcon2 filings that share a key but differ in some column both
      survive `drop_duplicates()`, and the merge then emits the rcon1 row
      twice. */
  lemma RepeatedKeyDuplicatesRows(r: RconRow, a: RconRow, b: RconRow)
    requires RconKey(a) == RconKey(r) && RconKey(b) == RconKey(r) && a != b
    ensures |MergeExtracts([r], [a, b])| == 2
  {
    DistinctPairKept(a, b);
    SingleKept(r);
    PairMatches(r, a, b);
    var none: seq<RconRow> := [];
    assert [r][..0] == none;
    assert LeftJoin(none, [a, b], RconKey, RconKey) == [];
    assert LeftJoin([r], [a, b], RconKey, RconKey) == JoinRow(r, [a, b], RconKey, RconKey);
  }

  lemma SingleKept(r: RconRow)
    ensures DropExactDuplicates([r]) == [r]
  {
    var none: seq<RconRow> := [];
    assert [r][..0] == none;
    assert DropDuplicates(none, WholeRow) == [];
  }

  lemma DistinctPairKept(a: RconRow, b: RconRow)
    requires a != b
    ensures DropExactDuplicates([a, b]) == [a, b]
  {
    SingleKept(a);
    assert [a, b][..1] == [a];
    assert DropDuplicates([a], WholeRow) == [a];
  }

  lemma PairMatches(r: RconRow, a: RconRow, b: RconRow)
    requires RconKey(a) == RconKey(r) && RconKey(b) == RconKey(r)
    ensures |JoinRow(r, [a, b], RconKey, RconKey)| == 2
  {
    var keep := KeyIs(RconKey, RconKey(r));
    var none: seq<RconRow> := [];
    assert [a][..0] == none && [a, b][..1] == [a];
    assert keep(a) && keep(b);
    assert Positions([a], keep) == [0];
    assert Positions([a, b], keep) == [0, 1];
  }

  // ---------------------------------------------------------------------------
  // Derived columns (lines 10-14)
  // ---------------------------------------------------------------------------

  const SmallBizLoanColumn: string := "small_biz_loan"
  const NetFedFundsColumn: string := "average_net_fed_funds_bought"
  const FedFundsBought: string := "rcon3353"
  const FedFundsSold: string := "rcon3365"

  /** The terms of line 10 as written: rcon5573 is listed twice. */
  const SmallBizTermsAsWritten: seq<string> :=
    ["rcon5584", "rcon5578", "rcon5570", "rcon5564", "rcon5585", "rcon5579", "rcon5569", "rcon5587", "rcon5581",
     "rcon5573", "rcon5567", "rcon5589", "rcon5573", "rcon5583", "rcon5575", "rcon5571", "rcon5565"]

  /** The sixteen distinct items of line 10, each once. */
  const SmallBizItems: seq<string> :=
    ["rcon5584", "rcon5578", "rcon5570", "rcon5564", "rcon5585", "rcon5579", "rcon5569", "rcon5587", "rcon5581",
     "rcon5573", "rcon5567", "rcon5589", "rcon5583", "rcon5575", "rcon5571", "rcon5565"]

  /** `df[a] + df[b] + ...` over the columns `names` of one row, added left
      to right: missing as soon as one term is missing. */
  function ItemTotal(items: Cells, names: seq<string>): (r: Option<real>)
    ensures r.Some? <==> ItemsPresent(items, names)
    decreases |names|
  {
    if names == [] then Some(0.0)
    else
      var init := names[..|names| - 1];
      assert forall i :: 0 <= i < |init| ==> init[i] == names[i];
      Add(ItemTotal(items, init), Cell(items, names[|names| - 1]))
  }

  /** Every column of `names` is present in the row. */
  ghost predicate ItemsPresent(items: Cells, names: seq<string>)
  {
    forall i :: 0 <= i < |names| ==> Cell(items, names[i]).Some?
  }

  /** Line 10 as written, over the seventeen terms. */
  function SmallBizLoanAsWritten(items: Cells): Option<real>
  {
    ItemTotal(items, SmallBizTermsAsWritten)
  }

  /** The small-business loan total with each item added once: missing as
      soon as one item is missing. */
  function SmallBizLoan(items: Cells): (r: Option<real>)
    ensures r.Some? <==> forall c :: c in SmallBizItems ==> Cell(items, c).Some?
  {
    assert ItemsPresent(items, SmallBizItems) <==> forall c :: c in SmallBizItems ==> Cell(items, c).Some?;
    ItemTotal(items, SmallBizItems)
  }

  lemma SmallBizItemsDistinct()
    ensures forall i, j :: 0 <= i < j < |SmallBizItems| ==> SmallBizItems[i] != SmallBizItems[j]
  {
  }

  /** Adding the column `x` in the middle of a chain of additions adds it to
      the total. */
  lemma {:induction false} ItemTotalInsert(items: Cells, p: seq<string>, x: string, q: seq<string>)
    ensures ItemTotal(items, p + [x] + q) == Add(ItemTotal(items, p + q), Cell(items, x))
    decreases |q|
  {
    if q == [] {
      assert p + [x] + q == p + [x];
      assert (p + [x])[..|p|] == p;
      assert p + q == p;
    } else {
      var init := q[..|q| - 1];
      var y := q[|q| - 1];
      ItemTotalInsert(items, p, x, init);
      assert (p + [x] + q)[..|p + [x] + q| - 1] == p + [x] + init;
      assert (p + q)[..|p + q| - 1] == p + init;
      assert (p + [x] + q)[|p + [x] + q| - 1] == y && (p + q)[|p + q| - 1] == y;
    }
  }

  /** Raising item `c` by `d` raises the total of `names` by `d` for each
      time `c` is listed. */
  lemma {:induction false} RaiseItem(items: Cells, names: seq<string>, c: string, d: real)
    requires c in items
    requires ItemTotal(items, names).Some?
    ensures ItemTotal(items[c := items[c] + d], names).Some?
    ensures ItemTotal(items[c := items[c] + d], names).value
            == ItemTotal(items, names).value + Repeated(d, multiset(names)[c])
    decreases |names|
  {
    if names == [] {
      assert multiset(names)[c] == 0;
    } else {
      var init := names[..|names| - 1];
      assert names == init + [names[|names| - 1]];
      RaiseItem(items, init, c, d);
      RaiseLast(items, init, names[|names| - 1], c, d);
    }
  }

  /** The step of RaiseItem: one more column at the end. */
  lemma RaiseLast(items: Cells, init: seq<string>, last: string, c: string, d: real)
    requires c in items
    requires ItemTotal(items, init + [last]).Some?
    requires ItemTotal(items[c := items[c] + d], init).Some?
    requires ItemTotal(items[c := items[c] + d], init).value
             == ItemTotal(items, init).value + Repeated(d, multiset(init)[c])
    ensures ItemTotal(items[c := items[c] + d], init + [last]).Some?
    ensures ItemTotal(items[c := items[c] + d], init + [last]).value
            == ItemTotal(items, init + [last]).value + Repeated(d, multiset(init + [last])[c])
  {
    var raised := items[c := items[c] + d];
    var names := init + [last];
    ItemTotalSnoc(raised, init, last);
    ItemTotalSnoc(items, init, last);
    assert Cell(items, last).Some?;
    if last == c {
      assert multiset(names)[c] == multiset(init)[c] + 1;
      assert Cell(raised, last) == Some(items[last] + d);
    } else {
      assert multiset(names)[c] == multiset(init)[c];
      assert Cell(raised, last) == Cell(items, last);
    }
  }

  lemma ItemTotalSnoc(items: Cells, init: seq<string>, last: string)
    ensures ItemTotal(items, init + [last]) == Add(ItemTotal(items, init), Cell(items, last))
  {
    var names := init + [last];
    assert names[..|names| - 1] == init && names[|names| - 1] == last;
  }

  /** `d` added `k` times. */
  function Repeated(d: real, k: nat): real
  {
    if k == 0 then 0.0 else Repeated(d, k - 1) + d
  }

  /** A column listed twice counts twice. */
  lemma RaiseListedTwice(items: Cells, names: seq<string>, c: string, d: real)
    requires c in items && multiset(names)[c] == 2
    requires ItemTotal(items, names).Some?
    ensures ItemTotal(items[c := items[c] + d], names).Some?
    ensures ItemTotal(items[c := items[c] + d], names).value == ItemTotal(items, names).value + 2.0 * d
  {
    RaiseItem(items, names, c, d);
    assert Repeated(d, 1) == d;
  }

  /** A distinct list holds each of its names once. */
  lemma {:induction false} OnceInDistinct(names: seq<string>, c: string)
    requires forall i, j :: 0 <= i < j < |names| ==> names[i] != names[j]
    requires c in names
    ensures multiset(names)[c] == 1
    decreases |names|
  {
    var init := names[..|names| - 1];
    var last := names[|names| - 1];
    assert names == init + [last];
    if last == c {
      assert c !in init by {
        forall k | 0 <= k < |init| ensures init[k] != c {
          assert names[k] == init[k];
        }
      }
    } else {
      assert c in init;
      OnceInDistinct(init, c);
    }
  }

  /** The corrected total counts every item once: raising one item by `d`
      raises the total by exactly `d`. */
  lemma SmallBizLoanCountsEachItemOnce(items: Cells, c: string, d: real)
    requires c in SmallBizItems && c in items
    requires SmallBizLoan(items).Some?
    ensures SmallBizLoan(items[c := items[c] + d]).Some?
    ensures SmallBizLoan(items[c := items[c] + d]).value == SmallBizLoan(items).value + d
  {
    SmallBizItemsDistinct();
    OnceInDistinct(SmallBizItems, c);
    RaiseItem(items, SmallBizItems, c, d);
  }

  /** As written, line 10 counts rcon5573 twice: raising it by `d` raises the
      total by `2 d`. */
  lemma SmallBizLoanAsWrittenCountsTwice(items: Cells, d: real)
    requires "rcon5573" in items
    requires SmallBizLoanAsWritten(items).Some?
    ensures SmallBizLoanAsWritten(items["rcon5573" := items["rcon5573"] + d]).Some?
    ensures SmallBizLoanAsWritten(items["rcon5573" := items["rcon5573"] + d]).value
            == SmallBizLoanAsWritten(items).value + 2.0 * d
  {
    RepeatedItemListedTwice();
    RaiseListedTwice(items, SmallBizTermsAsWritten, "rcon5573", d);
  }

  /** Line 10 is the sixteen items with rcon5573 listed again after the
      twelfth. */
  lemma AsWrittenSplit()
    ensures SmallBizTermsAsWritten == SmallBizItems[..12] + ["rcon5573"] + SmallBizItems[12..]
  {
  }

  lemma RepeatedItemInHead()
    ensures multiset(SmallBizItems[..12])["rcon5573"] == 1
  {
    SmallBizItemsDistinct();
    assert SmallBizItems[..12][9] == "rcon5573";
    OnceInDistinct(SmallBizItems[..12], "rcon5573");
  }

  lemma RepeatedItemNotInTail()
    ensures "rcon5573" !in SmallBizItems[12..]
  {
  }

  /** rcon5573 is the one item line 10 lists twice. */
  lemma RepeatedItemListedTwice()
    ensures multiset(SmallBizTermsAsWritten)["rcon5573"] == 2
  {
    AsWrittenSplit();
    RepeatedItemInHead();
    RepeatedItemNotInTail();
    MultisetCountSplit(SmallBizItems[..12], "rcon5573", SmallBizItems[12..]);
  }

  lemma MultisetCountSplit(p: seq<string>, x: string, q: seq<string>)
    ensures multiset(p + [x] + q)[x] == multiset(p)[x] + 1 + multiset(q)[x]
  {
  }

  /** The as-written total is the corrected total plus rcon5573 once more
      (and missing exactly when the corrected one is). */
  lemma SmallBizLoanAsWrittenAddsDuplicate(items: Cells)
    ensures SmallBizLoanAsWritten(items) == Add(SmallBizLoan(items), Cell(items, "rcon5573"))
  {
    var p := SmallBizItems[..12];
    var q := SmallBizItems[12..];
    assert SmallBizTermsAsWritten == p + ["rcon5573"] + q;
    assert SmallBizItems == p + q;
    ItemTotalInsert(items, p, "rcon5573", q);
  }

  /** The columns line 11 drops (the repeated name drops the same column). */
  function SmallBizDropped(): set<string>
  {
    set c | c in SmallBizTermsAsWritten
  }

  /** Line 11 drops exactly the sixteen items, and neither fed funds item. */
  lemma SmallBizDroppedItems()
    ensures forall c :: c in SmallBizDropped() <==> c in SmallBizItems
    ensures FedFundsBought !in SmallBizDropped() && FedFundsSold !in SmallBizDropped()
  {
    assert SmallBizTermsAsWritten == SmallBizItems[..12] + ["rcon5573"] + SmallBizItems[12..];
    assert SmallBizItems[9] == "rcon5573";
  }

  /** `df.drop(columns=names)` on one row. */
  function DropColumns(cells: Cells, names: set<string>): (r: Cells)
    ensures forall n :: Cell(r, n) == if n in names then None else Cell(cells, n)
  {
    cells - names
  }

  /** Lines 10-11: the small-business loan total replaces its items. */
  function WithSmallBizLoan(items: Cells): (r: Cells)
    ensures Cell(r, SmallBizLoanColumn) == SmallBizLoan(items)
    ensures forall n :: n != SmallBizLoanColumn ==> Cell(r, n) == if n in SmallBizItems then None else Cell(items, n)
  {
    SmallBizDroppedItems();
    DropColumns(SetCell(items, SmallBizLoanColumn, SmallBizLoan(items)), SmallBizDropped())
  }

  /** Lines 13-14: net fed funds bought replaces the amounts bought and sold. */
  function WithNetFedFunds(items: Cells): (r: Cells)
    ensures Cell(r, NetFedFundsColumn) == Sub(Cell(items, FedFundsBought), Cell(items, FedFundsSold))
    ensures forall n :: n != NetFedFundsColumn ==>
              Cell(r, n) == if n == FedFundsBought || n == FedFundsSold then None else Cell(items, n)
  {
    var net := Sub(Cell(items, FedFundsBought), Cell(items, FedFundsSold));
    DropColumns(SetCell(items, NetFedFundsColumn, net), {FedFundsBought, FedFundsSold})
  }

  /** Lines 10-14 on one row: the two totals are added and none of their
      components remain; every other column is unchanged. */
  function Derive(items: Cells): (r: Cells)
    ensures Cell(r, SmallBizLoanColumn) == SmallBizLoan(items)
    ensures Cell(r, NetFedFundsColumn) == Sub(Cell(items, FedFundsBought), Cell(items, FedFundsSold))
    ensures forall c :: c in SmallBizItems ==> Cell(r, c) == None
    ensures Cell(r, FedFundsBought) == None && Cell(r, FedFundsSold) == None
    ensures forall n ::
              (n !in SmallBizItems && n != FedFundsBought && n != FedFundsSold && n != SmallBizLoanColumn && n != NetFedFundsColumn)
              ==> Cell(r, n) == Cell(items, n)
  {
    DerivedNamesApart();
    WithNetFedFunds(WithSmallBizLoan(items))
  }

  /** The two new columns, the fed funds items and the small-business items
      are all different columns. */
  lemma DerivedNamesApart()
    ensures SmallBizLoanColumn !in SmallBizItems && NetFedFundsColumn !in SmallBizItems
    ensures FedFundsBought !in SmallBizItems && FedFundsSold !in SmallBizItems
    ensures SmallBizLoanColumn != NetFedFundsColumn
    ensures SmallBizLoanColumn != FedFundsBought && SmallBizLoanColumn != FedFundsSold
    ensures NetFedFundsColumn != FedFundsBought && NetFedFundsColumn != FedFundsSold
  {
  }

  /** Net fed funds bought and the amount sold add back up to the amount
      bought. */
  lemma NetFedFundsRoundTrip(items: Cells)
    requires Cell(items, FedFundsBought).Some? && Cell(items, FedFundsSold).Some?
    ensures Cell(Derive(items), NetFedFundsColumn).Some?
    ensures Cell(Derive(items), NetFedFundsColumn).value + items[FedFundsSold] == items[FedFundsBought]
  {
  }

  /** The whole script: de-duplicate both extracts, merge, derive. Row `j`
      comes from row `j` of the left merge: its rcon1 row, with the items of
      the matched rcon2 row merged in and then the two totals derived. */
  function CleanRcon(rcon1: seq<RconRow>, rcon2: seq<RconRow>): (out: seq<RconRow>)
    ensures var pairs := LeftJoin(DropExactDuplicates(rcon1), DropExactDuplicates(rcon2), RconKey, RconKey);
      && |out| == |pairs|
      && (forall j :: 0 <= j < |pairs| ==> out[j].(items := pairs[j].0.items) == pairs[j].0)
      && (forall j :: 0 <= j < |pairs| ==> out[j].items == Derive(Merged(pairs[j].0.items, RconItems(pairs[j].1))))
  {
    var pairs := LeftJoin(DropExactDuplicates(rcon1), DropExactDuplicates(rcon2), RconKey, RconKey);
    var merged := MergeItems(pairs);
    MergedRows(pairs);
    seq(|merged|, i requires 0 <= i < |merged| => merged[i].(items := Derive(merged[i].items)))
  }

  /** The merged rows' items are the rcon1 items with the matched rcon2 items taken over them. */
  lemma MergedRows(pairs: seq<(RconRow, Option<RconRow>)>)
    ensures forall j :: 0 <= j < |pairs| ==> MergeItems(pairs)[j].items == Merged(pairs[j].0.items, RconItems(pairs[j].1))
  {
    forall j | 0 <= j < |pairs|
      ensures MergeItems(pairs)[j].items == Merged(pairs[j].0.items, RconItems(pairs[j].1))
    {
      MergedCellsDetermine(MergeItems(pairs)[j].items, pairs[j].0.items, RconItems(pairs[j].1));
    }
  }
}
