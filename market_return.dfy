/**
 * The market-return import: damage/shortage rows returned from the market are
 * priced with the stock master's tax rate and grouped into one ledger row per
 * invoice, with one inventory row per priced return. Rows of stock without a
 * rate are skipped.
 */
module MarketReturn {
  import opened Wrappers
  import opened Rows
  import opened Seqs

  const MARKET: string := "market"

  type StockTable = map<(Company, string), StockInfo>

  /** The stock-rate subquery: the rate of the company's stock named `stockId`, if there is one. */
  function StockRate(stock: StockTable, c: Company, stockId: string): (r: Option<real>)
    ensures r.Some? <==> (c, stockId) in stock
    ensures r.Some? ==> r.value == stock[(c, stockId)].rt
  {
    if (c, stockId) in stock then Some(stock[(c, stockId)].rt) else None
  }

  predicate IsPartySale(e: Sales, c: Company, party: string)
  {
    e.company == c && e.partyId == party
  }

  /**
   * The party-ctin subquery (`order_by("-date")[:1]`): a latest ledger row of
   * the company for the party; among rows of the same date the first in table
   * order.
   */
  function LatestSale(t: seq<SalesRecord>, c: Company, party: string): (r: Option<Sales>)
    ensures r.Some? ==> IsPartySale(r.value, c, party)
    ensures r.None? ==> forall x :: x in t ==> !IsPartySale(x.entry, c, party)
  {
    if t == [] then None
    else
      var rest := LatestSale(t[1..], c, party);
      assert forall x :: x in t <==> x == t[0] || x in t[1..];
      if IsPartySale(t[0].entry, c, party) && (rest.None? || t[0].entry.date >= rest.value.date)
      then Some(t[0].entry)
      else rest
  }

  /** The lookup finds a row iff the party has one, and what it finds is dated no earlier than any other. */
  lemma {:induction false} LatestSaleSpec(t: seq<SalesRecord>, c: Company, party: string)
    ensures LatestSale(t, c, party).None? <==> forall x :: x in t ==> !IsPartySale(x.entry, c, party)
    ensures LatestSale(t, c, party).Some? ==>
      && (exists x :: x in t && x.entry == LatestSale(t, c, party).value)
      && IsPartySale(LatestSale(t, c, party).value, c, party)
      && forall x :: x in t && IsPartySale(x.entry, c, party) ==> x.entry.date <= LatestSale(t, c, party).value.date
  {
    if t != [] {
      LatestSaleSpec(t[1..], c, party);
      assert forall x :: x in t <==> x == t[0] || x in t[1..];
      var rest := LatestSale(t[1..], c, party);
      if rest.Some? && !(IsPartySale(t[0].entry, c, party) && t[0].entry.date >= rest.value.date) {
        var x :| x in t[1..] && x.entry == rest.value;
        assert x in t;
      }
    }
  }

  /**
   * The party's ctin from its latest ledger row; a missing row or a NULL ctin
   * both read as none.
   */
  function PartyCtin(t: seq<SalesRecord>, c: Company, party: string): (r: Option<string>)
    ensures r.Some? ==> exists x :: x in t && IsPartySale(x.entry, c, party) && x.entry.ctin == r
  {
    LatestSaleSpec(t, c, party);
    match LatestSale(t, c, party)
    case None => None
    case Some(e) => e.ctin
  }

  /**
   * A party without sales has no ctin; a party with sales gets the ctin of
   * one of its sales that no other sale of the party postdates.
   */
  lemma PartyCtinSpec(t: seq<SalesRecord>, c: Company, party: string)
    ensures (forall x :: x in t ==> !IsPartySale(x.entry, c, party)) ==> PartyCtin(t, c, party) == None
    ensures (exists x :: x in t && IsPartySale(x.entry, c, party)) ==>
      exists x :: x in t && IsPartySale(x.entry, c, party) && x.entry.ctin == PartyCtin(t, c, party)
        && forall y :: y in t && IsPartySale(y.entry, c, party) ==> y.entry.date <= x.entry.date
  {
    LatestSaleSpec(t, c, party);
    var l := LatestSale(t, c, party);
    if l.Some? {
      var x :| x in t && x.entry == l.value;
      assert IsPartySale(x.entry, c, party) && x.entry.ctin == PartyCtin(t, c, party);
    }
  }

  /** `mr.ctin or None`: an empty ctin becomes none. */
  function BlankToNone(o: Option<string>): (r: Option<string>)
    ensures r != Some("")
    ensures o != Some("") ==> r == o
    ensures o == Some("") ==> r == None
  {
    if o == Some("") then None else o
  }

  /** `filter(return_from="market", company=c)`; no date filter. */
  function MarketRows(dmg: seq<DmgShtRow>, c: Company): (r: seq<DmgShtRow>)
    ensures forall x :: x in r ==> x in dmg && x.returnFrom == MARKET && x.company == c
    ensures forall x :: x in dmg && x.returnFrom == MARKET && x.company == c ==> x in r
  {
    if dmg == [] then []
    else
      var x := dmg[|dmg| - 1];
      assert forall y :: y in dmg <==> y in dmg[..|dmg| - 1] || y == x by {
        assert dmg == dmg[..|dmg| - 1] + [x];
      }
      MarketRows(dmg[..|dmg| - 1], c) + (if x.returnFrom == MARKET && x.company == c then [x] else [])
  }

  /** The rows dated inside the range: the date filter `run_atomic` leaves out. */
  function DatedIn(dmg: seq<DmgShtRow>, w: DateRange): (r: seq<DmgShtRow>)
    ensures forall x :: x in r <==> x in dmg && InRange(w, x.date)
  {
    if dmg == [] then []
    else
      var x := dmg[|dmg| - 1];
      assert forall y :: y in dmg <==> y in dmg[..|dmg| - 1] || y == x by {
        assert dmg == dmg[..|dmg| - 1] + [x];
      }
      DatedIn(dmg[..|dmg| - 1], w) + (if InRange(w, x.date) then [x] else [])
  }

  /** `round(x, 3)` on the exact value, halves rounded up: a whole number of thousandths. */
  function Round3(x: real): (r: real)
    ensures (r * 1000.0).Floor as real == r * 1000.0
  {
    (x * 1000.0 + 0.5).Floor as real / 1000.0
  }

  /** Rounding to three places moves a value by at most half a thousandth. */
  lemma Round3Bound(x: real)
    ensures -0.0005 < Round3(x) - x <= 0.0005
  {
    var f := (x * 1000.0 + 0.5).Floor as real;
    assert f <= x * 1000.0 + 0.5 < f + 1.0;
  }

  /**
   * The tax-exclusive value amt * 100 / (100 + 2 * rt), rounded; a zero rate
   * gives zero; none when the divisor is zero (the division raises).
   */
  function TaxExclusive(amt: Money, rt: real): (r: Option<Money>)
    ensures r.None? <==> rt != 0.0 && 100.0 + 2.0 * rt == 0.0
    ensures rt == 0.0 ==> r == Some(0.0)
  {
    if rt == 0.0 then Some(0.0)
    else if 100.0 + 2.0 * rt == 0.0 then None
    else Some(Round3(amt * 100.0 / (100.0 + 2.0 * rt)))
  }

  /** At a non-zero rate the tax-exclusive value is the exact quotient to within half a thousandth. */
  lemma TaxExclusiveBound(amt: Money, rt: real)
    requires rt != 0.0 && 100.0 + 2.0 * rt != 0.0
    ensures TaxExclusive(amt, rt).Some?
    ensures -0.0005 < TaxExclusive(amt, rt).value - amt * 100.0 / (100.0 + 2.0 * rt) <= 0.0005
  {
    Round3Bound(amt * 100.0 / (100.0 + 2.0 * rt));
  }

  datatype MrState = MrState(order: seq<string>, byInum: map<string, Sales>, inventory: seq<Inventory>)
  datatype MrOutput = MrOutput(ledger: seq<Sales>, inventory: seq<Inventory>)

  /** The ledger row opened for an invoice on its first priced row; the unset columns take their zero defaults. */
  function OpenedSales(c: Company, mr: DmgShtRow, ctin: Option<string>): Sales
  {
    Sales(c, mr.kind, mr.inum, mr.date, mr.partyId, ctin, 0.0, 0.0, 0.0, 0.0, 0.0)
  }

  /**
   * A priced row joins the state: its invoice's ledger row is opened if new
   * (with the party's ctin) and gets its amount; its inventory row is appended.
   */
  function Absorb(c: Company, st: MrState, mr: DmgShtRow, line: Inventory, ctin: Option<string>): MrState
  {
    MrState(
      if mr.inum in st.byInum then st.order else st.order + [mr.inum],
      AddReturn(c, st.byInum, mr, ctin),
      st.inventory + [line])
  }

  /** The invoice's ledger row, opened if new, with the return's amount added. */
  function AddReturn(c: Company, byInum: map<string, Sales>, mr: DmgShtRow, ctin: Option<string>): map<string, Sales>
  {
    var base := if mr.inum in byInum then byInum[mr.inum] else OpenedSales(c, mr, ctin);
    byInum[mr.inum := base.(amt := base.amt + mr.amt)]
  }

  /** One iteration of the loop over the market returns. */
  function MrStep(c: Company, st: MrState, mr: DmgShtRow, stock: StockTable, sales: seq<SalesRecord>): Result<MrState, Error>
  {
    match StockRate(stock, c, mr.stockId)
    case None => Success(st)
    case Some(rt) =>
      match TaxExclusive(mr.amt, rt)
      case None => Failure(ZeroDivision(mr.stockId))
      case Some(txval) =>
        Success(Absorb(c, st, mr, Inventory(c, mr.inum, mr.stockId, mr.qty, rt, txval), BlankToNone(PartyCtin(sales, c, mr.partyId))))
  }

  /** The loop over the rows, stopping at the first error. */
  function MrFold(c: Company, rows: seq<DmgShtRow>, stock: StockTable, sales: seq<SalesRecord>): Result<MrState, Error>
  {
    if rows == [] then Success(MrState([], map[], []))
    else
      match MrFold(c, rows[..|rows| - 1], stock, sales)
      case Failure(e) => Failure(e)
      case Success(st) => MrStep(c, st, rows[|rows| - 1], stock, sales)
  }

  // Reference definitions of what the loop computes.

  /** The rows the loop does not skip: those whose stock has a rate. */
  function KeptRows(c: Company, rows: seq<DmgShtRow>, stock: StockTable): seq<DmgShtRow>
  {
    if rows == [] then []
    else
      var x := rows[|rows| - 1];
      KeptRows(c, rows[..|rows| - 1], stock) + (if StockRate(stock, c, x.stockId).Some? then [x] else [])
  }

  function Inums(rows: seq<DmgShtRow>): seq<string>
  {
    if rows == [] then [] else Inums(rows[..|rows| - 1]) + [rows[|rows| - 1].inum]
  }

  /** The amounts of invoice `inum`, summed. */
  function SumMrAmt(rows: seq<DmgShtRow>, inum: string): Money
  {
    if rows == [] then 0.0
    else
      var x := rows[|rows| - 1];
      SumMrAmt(rows[..|rows| - 1], inum) + (if x.inum == inum then x.amt else 0.0)
  }

  /** The first row of invoice `inum`. */
  function FirstWith(rows: seq<DmgShtRow>, inum: string): DmgShtRow
    requires inum in Inums(rows)
  {
    var p := rows[..|rows| - 1];
    if inum in Inums(p) then FirstWith(p, inum) else rows[|rows| - 1]
  }

  /** The ledger row of invoice `inum`: opened from its first row, holding the sum of its amounts. */
  function Aggregate(c: Company, kept: seq<DmgShtRow>, inum: string, sales: seq<SalesRecord>): Sales
    requires inum in Inums(kept)
  {
    var f := FirstWith(kept, inum);
    OpenedSales(c, f, BlankToNone(PartyCtin(sales, c, f.partyId))).(amt := SumMrAmt(kept, inum))
  }

  function RateOf(stock: StockTable, c: Company, mr: DmgShtRow): real
  {
    match StockRate(stock, c, mr.stockId)
    case Some(rt) => rt
    case None => 0.0
  }

  /** The inventory row of a priced return. */
  function InventoryLineOf(c: Company, mr: DmgShtRow, stock: StockTable): Inventory
  {
    var rt := RateOf(stock, c, mr);
    Inventory(c, mr.inum, mr.stockId, mr.qty, rt, match TaxExclusive(mr.amt, rt) case Some(v) => v case None => 0.0)
  }

  /** A priced row whose rate makes the divisor zero. */
  predicate DividesByZero(stock: StockTable, c: Company, mr: DmgShtRow)
  {
    StockRate(stock, c, mr.stockId).Some? && TaxExclusive(mr.amt, StockRate(stock, c, mr.stockId).value).None?
  }

  /** The ledger rows by invoice that the loop should build from the kept rows `kept`. */
  function AggregateMap(c: Company, kept: seq<DmgShtRow>, sales: seq<SalesRecord>): map<string, Sales>
  {
    map k | k in Inums(kept) :: Aggregate(c, kept, k, sales)
  }

  /** The inventory rows of the kept rows, one each, in order. */
  function InventoryLines(c: Company, kept: seq<DmgShtRow>, stock: StockTable): seq<Inventory>
  {
    if kept == [] then []
    else InventoryLines(c, kept[..|kept| - 1], stock) + [InventoryLineOf(c, kept[|kept| - 1], stock)]
  }

  /** The state the loop should reach after the kept rows `kept`. */
  function Expected(c: Company, kept: seq<DmgShtRow>, stock: StockTable, sales: seq<SalesRecord>): MrState
  {
    MrState(Dedup(Inums(kept)), AggregateMap(c, kept, sales), InventoryLines(c, kept, stock))
  }

  lemma {:induction false} SumMrAmtAbsent(rows: seq<DmgShtRow>, inum: string)
    requires inum !in Inums(rows)
    ensures SumMrAmt(rows, inum) == 0.0
  {
    if rows != [] {
      SumMrAmtAbsent(rows[..|rows| - 1], inum);
    }
  }

  lemma {:induction false} FirstWithAppend(rows: seq<DmgShtRow>, x: DmgShtRow, k: string)
    requires k in Inums(rows + [x])
    ensures Inums(rows + [x]) == Inums(rows) + [x.inum]
    ensures FirstWith(rows + [x], k) == if k in Inums(rows) then FirstWith(rows, k) else x
  {
    assert (rows + [x])[..|rows|] == rows;
  }

  lemma SumMrAmtAppend(rows: seq<DmgShtRow>, x: DmgShtRow, k: string)
    ensures SumMrAmt(rows + [x], k) == SumMrAmt(rows, k) + (if x.inum == k then x.amt else 0.0)
  {
    assert (rows + [x])[..|rows|] == rows;
  }

  /** The ledger part of one priced row: the invoice's row is opened or has the amount added. */
  lemma ExpectedByInumStep(c: Company, kept: seq<DmgShtRow>, mr: DmgShtRow, sales: seq<SalesRecord>)
    ensures AddReturn(c, AggregateMap(c, kept, sales), mr, BlankToNone(PartyCtin(sales, c, mr.partyId)))
      == AggregateMap(c, kept + [mr], sales)
  {
    var kept' := kept + [mr];
    var m := AggregateMap(c, kept, sales);
    var m' := AggregateMap(c, kept', sales);
    var lhs := AddReturn(c, m, mr, BlankToNone(PartyCtin(sales, c, mr.partyId)));
    assert Inums(kept') == Inums(kept) + [mr.inum] by { FirstWithAppend(kept, mr, mr.inum); }
    assert lhs.Keys == m'.Keys;
    forall k | k in lhs
      ensures lhs[k] == m'[k]
    {
      FirstWithAppend(kept, mr, k);
      SumMrAmtAppend(kept, mr, k);
      if k == mr.inum && k !in Inums(kept) {
        SumMrAmtAbsent(kept, mr.inum);
      }
    }
    assert lhs == m';
  }

  lemma InventoryLinesAppend(c: Company, kept: seq<DmgShtRow>, mr: DmgShtRow, stock: StockTable)
    ensures InventoryLines(c, kept + [mr], stock) == InventoryLines(c, kept, stock) + [InventoryLineOf(c, mr, stock)]
  {
    assert (kept + [mr])[..|kept|] == kept;
  }

  lemma DedupAppend(s: seq<string>, x: string)
    ensures Dedup(s + [x]) == if x in s then Dedup(s) else Dedup(s) + [x]
  {
    assert (s + [x])[..|s|] == s;
    DedupSpec(s);
  }

  /** One iteration on a priced row that does not divide by zero absorbs it. */
  lemma MrStepPriced(c: Company, st: MrState, mr: DmgShtRow, stock: StockTable, sales: seq<SalesRecord>)
    requires StockRate(stock, c, mr.stockId).Some?
    requires !DividesByZero(stock, c, mr)
    ensures MrStep(c, st, mr, stock, sales)
      == Success(Absorb(c, st, mr, InventoryLineOf(c, mr, stock), BlankToNone(PartyCtin(sales, c, mr.partyId))))
  {
  }

  /** The invoice order after one more kept row: a new invoice goes last. */
  lemma ExpectedOrderAppend(kept: seq<DmgShtRow>, mr: DmgShtRow)
    ensures Dedup(Inums(kept + [mr])) == if mr.inum in Inums(kept) then Dedup(Inums(kept)) else Dedup(Inums(kept)) + [mr.inum]
  {
    assert Inums(kept + [mr]) == Inums(kept) + [mr.inum] by {
      FirstWithAppend(kept, mr, mr.inum);
    }
    DedupAppend(Inums(kept), mr.inum);
  }

  /** Absorbing one more kept row into the reference state of the kept rows gives that of the longer sequence. */
  lemma AbsorbExpected(c: Company, kept: seq<DmgShtRow>, mr: DmgShtRow, stock: StockTable, sales: seq<SalesRecord>)
    ensures Absorb(c, Expected(c, kept, stock, sales), mr, InventoryLineOf(c, mr, stock), BlankToNone(PartyCtin(sales, c, mr.partyId)))
      == Expected(c, kept + [mr], stock, sales)
  {
    var m := AggregateMap(c, kept, sales);
    var e := Expected(c, kept, stock, sales);
    var a := Absorb(c, e, mr, InventoryLineOf(c, mr, stock), BlankToNone(PartyCtin(sales, c, mr.partyId)));
    var e' := Expected(c, kept + [mr], stock, sales);
    assert (mr.inum in m) == (mr.inum in Inums(kept));
    assert a.order == e'.order by {
      ExpectedOrderAppend(kept, mr);
    }
    assert a.byInum == e'.byInum by {
      ExpectedByInumStep(c, kept, mr, sales);
    }
    var line := InventoryLineOf(c, mr, stock);
    assert a.inventory == e.inventory + [line];
    assert e'.inventory == e.inventory + [line] by {
      InventoryLinesAppend(c, kept, mr, stock);
    }
    MrStateEq(a, e');
  }

  lemma MrStateEq(a: MrState, b: MrState)
    requires a.order == b.order && a.byInum == b.byInum && a.inventory == b.inventory
    ensures a == b
  {
  }

  /** A priced row moves the reference state of the kept rows to that of the kept rows and the new one. */
  lemma ExpectedStep(c: Company, kept: seq<DmgShtRow>, mr: DmgShtRow, stock: StockTable, sales: seq<SalesRecord>)
    requires StockRate(stock, c, mr.stockId).Some?
    requires !DividesByZero(stock, c, mr)
    ensures MrStep(c, Expected(c, kept, stock, sales), mr, stock, sales) == Success(Expected(c, kept + [mr], stock, sales))
  {
    MrStepPriced(c, Expected(c, kept, stock, sales), mr, stock, sales);
    AbsorbExpected(c, kept, mr, stock, sales);
  }

  /** One more row: the loop's state stays the reference state of the kept rows. */
  lemma MrFoldStep(c: Company, rows: seq<DmgShtRow>, stock: StockTable, sales: seq<SalesRecord>)
    requires rows != []
    requires var p := rows[..|rows| - 1];
      MrFold(c, p, stock, sales).Success? ==> MrFold(c, p, stock, sales).value == Expected(c, KeptRows(c, p, stock), stock, sales)
    ensures MrFold(c, rows, stock, sales).Success? ==>
      MrFold(c, rows, stock, sales).value == Expected(c, KeptRows(c, rows, stock), stock, sales)
  {
    var p := rows[..|rows| - 1];
    var mr := rows[|rows| - 1];
    if MrFold(c, p, stock, sales).Success? {
      if StockRate(stock, c, mr.stockId).Some? {
        if !DividesByZero(stock, c, mr) {
          ExpectedStep(c, KeptRows(c, p, stock), mr, stock, sales);
        }
      } else {
        assert KeptRows(c, rows, stock) == KeptRows(c, p, stock);
      }
    }
  }

  /** The loop fails iff some priced row divides by zero. */
  lemma {:induction false} MrFoldFailsIff(c: Company, rows: seq<DmgShtRow>, stock: StockTable, sales: seq<SalesRecord>)
    ensures MrFold(c, rows, stock, sales).Success? <==> forall i :: 0 <= i < |rows| ==> !DividesByZero(stock, c, rows[i])
  {
    if rows != [] {
      var p := rows[..|rows| - 1];
      MrFoldFailsIff(c, p, stock, sales);
      assert MrFold(c, rows, stock, sales).Success?
        <==> MrFold(c, p, stock, sales).Success? && !DividesByZero(stock, c, rows[|rows| - 1]);
      assert forall i :: 0 <= i < |p| ==> p[i] == rows[i];
    }
  }

  /** When the loop succeeds it ends in the reference state of the rows it kept. */
  lemma {:induction false} MrFoldSpec(c: Company, rows: seq<DmgShtRow>, stock: StockTable, sales: seq<SalesRecord>)
    ensures MrFold(c, rows, stock, sales).Success? ==>
      MrFold(c, rows, stock, sales).value == Expected(c, KeptRows(c, rows, stock), stock, sales)
  {
    if rows != [] {
      MrFoldSpec(c, rows[..|rows| - 1], stock, sales);
      MrFoldStep(c, rows, stock, sales);
    }
  }

  /** The values of the dict in insertion order (`sales_objects.values()`). */
  function ValuesInOrder(order: seq<string>, m: map<string, Sales>): seq<Sales>
    requires forall k :: k in order ==> k in m
  {
    seq(|order|, i requires 0 <= i < |order| => m[order[i]])
  }

  /** What the market-return import inserts for company `c`, or the error that aborts it. */
  function MarketReturnTransform(c: Company, dmg: seq<DmgShtRow>, stock: StockTable, sales: seq<SalesRecord>): (res: Result<MrOutput, Error>)
    ensures res.Failure? ==> res.error.ZeroDivision?
    ensures res.Success? ==> |res.value.inventory| == |KeptRows(c, MarketRows(dmg, c), stock)|
  {
    var rows := MarketRows(dmg, c);
    MrFoldErrors(c, rows, stock, sales);
    match MrFold(c, rows, stock, sales)
    case Failure(e) => Failure(e)
    case Success(st) =>
      MrFoldSpec(c, rows, stock, sales);
      InventoryLinesSpec(c, KeptRows(c, rows, stock), stock);
      DedupSpec(Inums(KeptRows(c, rows, stock)));
      Success(MrOutput(ValuesInOrder(st.order, st.byInum), st.inventory))
  }

  /** The imported rows, one loop iteration per market return. */
  method MarketReturnRows(c: Company, dmg: seq<DmgShtRow>, stock: StockTable, sales: seq<SalesRecord>)
    returns (res: Result<MrOutput, Error>)
    ensures res == MarketReturnTransform(c, dmg, stock, sales)
  {
    var rows := MarketRows(dmg, c);
    var order: seq<string> := [];
    var byInum: map<string, Sales> := map[];
    var inventory: seq<Inventory> := [];
    var i := 0;
    while i < |rows|
      invariant 0 <= i <= |rows|
      invariant MrFold(c, rows[..i], stock, sales) == Success(MrState(order, byInum, inventory))
    {
      var mr := rows[i];
      MrFoldSnoc(c, rows, i, stock, sales, MrState(order, byInum, inventory));
      var ok;
      ok, order, byInum, inventory := MarketReturnStep(c, order, byInum, inventory, mr, stock, sales);
      if !ok {
        res := Failure(ZeroDivision(mr.stockId));
        MrFoldPrefixFails(c, rows, i + 1, stock, sales);
        return;
      }
      i := i + 1;
    }
    assert rows[..i] == rows;
    MrFoldTransform(c, dmg, stock, sales, MrState(order, byInum, inventory));
    res := Success(MrOutput(ValuesInOrder(order, byInum), inventory));
  }

  /** Folding one more row applies one more step to the state reached so far. */
  lemma MrFoldSnoc(c: Company, rows: seq<DmgShtRow>, i: nat, stock: StockTable, sales: seq<SalesRecord>, st: MrState)
    requires i < |rows| && MrFold(c, rows[..i], stock, sales) == Success(st)
    ensures MrFold(c, rows[..i + 1], stock, sales) == MrStep(c, st, rows[i], stock, sales)
  {
    assert rows[..i + 1][..i] == rows[..i];
  }

  /** A fold that completes is the import's result. */
  lemma MrFoldTransform(c: Company, dmg: seq<DmgShtRow>, stock: StockTable, sales: seq<SalesRecord>, st: MrState)
    requires MrFold(c, MarketRows(dmg, c), stock, sales) == Success(st)
    ensures forall k :: k in st.order ==> k in st.byInum
    ensures MarketReturnTransform(c, dmg, stock, sales) == Success(MrOutput(ValuesInOrder(st.order, st.byInum), st.inventory))
  {
    var rows := MarketRows(dmg, c);
    MrFoldSpec(c, rows, stock, sales);
    DedupSpec(Inums(KeptRows(c, rows, stock)));
  }

  /**
   * One iteration of the loop: a return whose stock has no rate is skipped; a
   * priced one is valued tax-exclusive and absorbed; `ok` is false when the
   * division by `100 + 2 * rt` raises.
   */
  method MarketReturnStep(c: Company, order: seq<string>, byInum: map<string, Sales>, inventory: seq<Inventory>,
                          mr: DmgShtRow, stock: StockTable, sales: seq<SalesRecord>)
    returns (ok: bool, order': seq<string>, byInum': map<string, Sales>, inventory': seq<Inventory>)
    ensures ok ==> MrStep(c, MrState(order, byInum, inventory), mr, stock, sales) == Success(MrState(order', byInum', inventory'))
    ensures !ok ==> MrStep(c, MrState(order, byInum, inventory), mr, stock, sales) == Failure(ZeroDivision(mr.stockId))
  {
    ghost var st := MrState(order, byInum, inventory);
    ok, order', byInum', inventory' := true, order, byInum, inventory;
    var ctin := BlankToNone(PartyCtin(sales, c, mr.partyId));
    var rate := StockRate(stock, c, mr.stockId);
    if rate.Some? {
      var rt := rate.value;
      var txval: Money;
      if rt == 0.0 {
        txval := 0.0;
      } else if 100.0 + 2.0 * rt == 0.0 {
        return false, order, byInum, inventory;
      } else {
        txval := Round3(mr.amt * 100.0 / (100.0 + 2.0 * rt));
      }
      var line := Inventory(c, mr.inum, mr.stockId, mr.qty, rt, txval);
      assert MrStep(c, st, mr, stock, sales) == Success(Absorb(c, st, mr, line, ctin)) by {
        assert TaxExclusive(mr.amt, rt) == Some(txval);
      }
      order', byInum', inventory' := AbsorbInto(c, order, byInum, inventory, mr, line, ctin);
      MrStateEq(Absorb(c, st, mr, line, ctin), MrState(order', byInum', inventory'));
    }
  }

  /**
   * The loop body for a priced return: the invoice's ledger row is opened
   * (with amount zero) if the invoice is new, the return's amount is added to
   * it and its inventory row is appended.
   */
  method AbsorbInto(c: Company, order: seq<string>, byInum: map<string, Sales>, inventory: seq<Inventory>,
                    mr: DmgShtRow, line: Inventory, ctin: Option<string>)
    returns (order': seq<string>, byInum': map<string, Sales>, inventory': seq<Inventory>)
    ensures MrState(order', byInum', inventory') == Absorb(c, MrState(order, byInum, inventory), mr, line, ctin)
  {
    order', byInum' := order, byInum;
    ghost var base := if mr.inum in byInum then byInum[mr.inum] else OpenedSales(c, mr, ctin);
    if mr.inum !in byInum' {
      order' := order' + [mr.inum];
      byInum' := byInum'[mr.inum := OpenedSales(c, mr, ctin)];
    }
    assert byInum'[mr.inum] == base;
    byInum' := byInum'[mr.inum := byInum'[mr.inum].(amt := byInum'[mr.inum].amt + mr.amt)];
    inventory' := inventory + [line];
    assert byInum' == AddReturn(c, byInum, mr, ctin);
  }

  /** A loop that fails on a prefix of the rows fails on all of them, with the same error. */
  lemma {:induction false} MrFoldPrefixFails(c: Company, rows: seq<DmgShtRow>, n: nat, stock: StockTable, sales: seq<SalesRecord>)
    requires n <= |rows|
    requires MrFold(c, rows[..n], stock, sales).Failure?
    ensures MrFold(c, rows, stock, sales) == MrFold(c, rows[..n], stock, sales)
    decreases |rows| - n
  {
    if n < |rows| {
      assert rows[..n + 1][..n] == rows[..n];
      MrFoldPrefixFails(c, rows, n + 1, stock, sales);
    } else {
      assert rows[..n] == rows;
    }
  }

  // Properties of the import.

  /** `FirstWith` finds the earliest row of the invoice. */
  lemma {:induction false} FirstWithSpec(rows: seq<DmgShtRow>, k: string)
    requires k in Inums(rows)
    ensures exists i :: 0 <= i < |rows| && rows[i] == FirstWith(rows, k) && forall j :: 0 <= j < i ==> rows[j].inum != k
    ensures FirstWith(rows, k).inum == k
  {
    var p := rows[..|rows| - 1];
    InumsSpec(p);
    if k in Inums(p) {
      FirstWithSpec(p, k);
      var i :| 0 <= i < |p| && p[i] == FirstWith(p, k) && forall j :: 0 <= j < i ==> p[j].inum != k;
      assert FirstWith(rows, k) == FirstWith(p, k);
      assert forall j :: 0 <= j <= i ==> rows[j] == p[j];
    } else {
      assert Inums(rows) == Inums(p) + [rows[|p|].inum];
      assert FirstWith(rows, k) == rows[|p|];
      forall j | 0 <= j < |p| ensures rows[j].inum != k {
        assert Inums(p)[j] == p[j].inum;
      }
    }
  }

  lemma {:induction false} InumsSpec(rows: seq<DmgShtRow>)
    ensures |Inums(rows)| == |rows|
    ensures forall i :: 0 <= i < |rows| ==> Inums(rows)[i] == rows[i].inum
  {
    if rows != [] {
      InumsSpec(rows[..|rows| - 1]);
    }
  }

  lemma {:induction false} InventoryLinesSpec(c: Company, kept: seq<DmgShtRow>, stock: StockTable)
    ensures |InventoryLines(c, kept, stock)| == |kept|
    ensures forall i :: 0 <= i < |kept| ==> InventoryLines(c, kept, stock)[i] == InventoryLineOf(c, kept[i], stock)
  {
    if kept != [] {
      InventoryLinesSpec(c, kept[..|kept| - 1], stock);
    }
  }

  lemma {:induction false} KeptRowsSpec(c: Company, rows: seq<DmgShtRow>, stock: StockTable)
    ensures forall x :: x in KeptRows(c, rows, stock) <==> x in rows && StockRate(stock, c, x.stockId).Some?
  {
    if rows != [] {
      KeptRowsSpec(c, rows[..|rows| - 1], stock);
      assert rows == rows[..|rows| - 1] + [rows[|rows| - 1]];
    }
  }

  /** The import aborts iff some market return of the company is priced at a rate that makes the divisor zero. */
  lemma MarketReturnFailsIff(c: Company, dmg: seq<DmgShtRow>, stock: StockTable, sales: seq<SalesRecord>)
    ensures MarketReturnTransform(c, dmg, stock, sales).Failure? <==>
      exists x :: x in MarketRows(dmg, c) && DividesByZero(stock, c, x)
    ensures MarketReturnTransform(c, dmg, stock, sales).Failure? ==>
      MarketReturnTransform(c, dmg, stock, sales).error.ZeroDivision?
  {
    var rows := MarketRows(dmg, c);
    MrFoldFailsIff(c, rows, stock, sales);
    MrFoldErrors(c, rows, stock, sales);
    if exists x :: x in rows && DividesByZero(stock, c, x) {
      var x :| x in rows && DividesByZero(stock, c, x);
      var i :| 0 <= i < |rows| && rows[i] == x;
    }
  }

  lemma {:induction false} MrFoldErrors(c: Company, rows: seq<DmgShtRow>, stock: StockTable, sales: seq<SalesRecord>)
    ensures MrFold(c, rows, stock, sales).Failure? ==> MrFold(c, rows, stock, sales).error.ZeroDivision?
  {
    if rows != [] {
      MrFoldErrors(c, rows[..|rows| - 1], stock, sales);
    }
  }

  /**
   * On success: one ledger row per invoice among the priced market returns,
   * in order of first appearance, each carrying the sum of that invoice's
   * amounts and the columns of its first row; one inventory row per priced
   * return, in order.
   */
  lemma MarketReturnSpec(c: Company, dmg: seq<DmgShtRow>, stock: StockTable, sales: seq<SalesRecord>)
    requires MarketReturnTransform(c, dmg, stock, sales).Success?
    ensures var out := MarketReturnTransform(c, dmg, stock, sales).value;
      var kept := KeptRows(c, MarketRows(dmg, c), stock);
      && |out.ledger| == |Dedup(Inums(kept))|
      && (forall i :: 0 <= i < |out.ledger| ==>
            Dedup(Inums(kept))[i] in Inums(kept) && out.ledger[i] == Aggregate(c, kept, Dedup(Inums(kept))[i], sales))
      && out.inventory == InventoryLines(c, kept, stock)
  {
    var kept := KeptRows(c, MarketRows(dmg, c), stock);
    MrFoldSpec(c, MarketRows(dmg, c), stock, sales);
    DedupSpec(Inums(kept));
  }

  /** The ledger row of an invoice names it, belongs to the company, sums its amounts and has no empty ctin. */
  lemma AggregateSpec(c: Company, kept: seq<DmgShtRow>, k: string, sales: seq<SalesRecord>)
    requires k in Inums(kept)
    ensures var e := Aggregate(c, kept, k, sales);
      && e.inum == k && e.company == c && e.amt == SumMrAmt(kept, k)
      && e.ctin != Some("") && e.discount == 0.0
      && exists x :: x in kept && x.inum == k && e.kind == x.kind && e.date == x.date && e.partyId == x.partyId
  {
    FirstWithSpec(kept, k);
  }

  /** Ledger rows built by `Aggregate` over the distinct invoices name them once each and carry their totals. */
  lemma {:induction false} AggregatedLedger(c: Company, kept: seq<DmgShtRow>, ledger: seq<Sales>, sales: seq<SalesRecord>)
    requires |ledger| == |Dedup(Inums(kept))|
    requires forall i :: 0 <= i < |ledger| ==>
      Dedup(Inums(kept))[i] in Inums(kept) && ledger[i] == Aggregate(c, kept, Dedup(Inums(kept))[i], sales)
    ensures forall i, j :: 0 <= i < j < |ledger| ==> ledger[i].inum != ledger[j].inum
    ensures forall x :: x in kept ==> exists i :: 0 <= i < |ledger| && ledger[i].inum == x.inum
    ensures forall i :: 0 <= i < |ledger| ==>
      && ledger[i].company == c
      && ledger[i].amt == SumMrAmt(kept, ledger[i].inum)
      && ledger[i].ctin != Some("")
      && ledger[i].discount == 0.0
  {
    var d := Dedup(Inums(kept));
    DedupSpec(Inums(kept));
    forall i | 0 <= i < |ledger|
      ensures ledger[i].inum == d[i]
      ensures ledger[i].company == c && ledger[i].amt == SumMrAmt(kept, ledger[i].inum)
      ensures ledger[i].ctin != Some("") && ledger[i].discount == 0.0
    {
      AggregateSpec(c, kept, d[i], sales);
    }
    forall x | x in kept ensures exists i :: 0 <= i < |ledger| && ledger[i].inum == x.inum {
      InumsSpec(kept);
      var j :| 0 <= j < |kept| && kept[j] == x;
      assert Inums(kept)[j] == x.inum;
      assert x.inum in d;
      var i :| 0 <= i < |d| && d[i] == x.inum;
      assert ledger[i].inum == x.inum;
    }
  }

  /**
   * On success, one inventory row per priced market return, in order: the
   * return's invoice, stock and quantity, the stock's rate, and the
   * tax-exclusive value (zero at a zero rate).
   */
  lemma MarketInventoryRows(c: Company, dmg: seq<DmgShtRow>, stock: StockTable, sales: seq<SalesRecord>)
    requires MarketReturnTransform(c, dmg, stock, sales).Success?
    ensures var out := MarketReturnTransform(c, dmg, stock, sales).value;
      var kept := KeptRows(c, MarketRows(dmg, c), stock);
      && |out.inventory| == |kept|
      && forall i :: 0 <= i < |kept| ==>
           && kept[i] in dmg && kept[i].company == c && kept[i].returnFrom == MARKET
           && StockRate(stock, c, kept[i].stockId).Some?
           && var rt := StockRate(stock, c, kept[i].stockId).value;
              && 100.0 + 2.0 * rt != 0.0
              && out.inventory[i] == Inventory(c, kept[i].inum, kept[i].stockId, kept[i].qty, rt,
                   if rt == 0.0 then 0.0 else Round3(kept[i].amt * 100.0 / (100.0 + 2.0 * rt)))
  {
    var rows := MarketRows(dmg, c);
    var kept := KeptRows(c, rows, stock);
    MarketReturnSpec(c, dmg, stock, sales);
    InventoryLinesSpec(c, kept, stock);
    KeptRowsSpec(c, rows, stock);
    MarketReturnFailsIff(c, dmg, stock, sales);
    forall i | 0 <= i < |kept|
      ensures kept[i] in rows && !DividesByZero(stock, c, kept[i])
    {
      assert kept[i] in kept;
    }
  }

  /** The ledger rows name distinct invoices, cover every priced return, and hold the invoice's total amount. */
  lemma MarketReturnLedger(c: Company, dmg: seq<DmgShtRow>, stock: StockTable, sales: seq<SalesRecord>)
    requires MarketReturnTransform(c, dmg, stock, sales).Success?
    ensures var out := MarketReturnTransform(c, dmg, stock, sales).value;
      var kept := KeptRows(c, MarketRows(dmg, c), stock);
      && (forall i, j :: 0 <= i < j < |out.ledger| ==> out.ledger[i].inum != out.ledger[j].inum)
      && (forall x :: x in kept ==> exists i :: 0 <= i < |out.ledger| && out.ledger[i].inum == x.inum)
      && forall i :: 0 <= i < |out.ledger| ==>
           && out.ledger[i].company == c
           && out.ledger[i].amt == SumMrAmt(kept, out.ledger[i].inum)
           && out.ledger[i].ctin != Some("")
           && out.ledger[i].discount == 0.0
  {
    MarketReturnSpec(c, dmg, stock, sales);
    AggregatedLedger(c, KeptRows(c, MarketRows(dmg, c), stock), MarketReturnTransform(c, dmg, stock, sales).value.ledger, sales);
  }

  /** A market return of stock without a rate changes nothing. */
  lemma UnratedReturnIgnored(c: Company, dmg: seq<DmgShtRow>, x: DmgShtRow, stock: StockTable, sales: seq<SalesRecord>)
    requires StockRate(stock, c, x.stockId).None?
    ensures MarketReturnTransform(c, dmg + [x], stock, sales) == MarketReturnTransform(c, dmg, stock, sales)
  {
    assert (dmg + [x])[..|dmg|] == dmg;
    var rows := MarketRows(dmg, c);
    if x.returnFrom == MARKET && x.company == c {
      assert MarketRows(dmg + [x], c) == rows + [x];
      assert (rows + [x])[..|rows|] == rows;
      assert MrFold(c, rows + [x], stock, sales) == MrFold(c, rows, stock, sales);
    } else {
      assert MarketRows(dmg + [x], c) == rows;
    }
  }

  /** A return of 118.0 at rate 9 is valued at 100.0 before tax; the invoice's ledger row carries 118.0. */
  lemma MarketReturnExample(c: Company, x: DmgShtRow, stock: StockTable, sales: seq<SalesRecord>)
    requires x.company == c && x.returnFrom == MARKET && x.amt == 118.0
    requires StockRate(stock, c, x.stockId) == Some(9.0)
    ensures MarketReturnTransform(c, [x], stock, sales).Success?
    ensures |MarketReturnTransform(c, [x], stock, sales).value.ledger| == 1
    ensures |MarketReturnTransform(c, [x], stock, sales).value.inventory| == 1
    ensures MarketReturnTransform(c, [x], stock, sales).value.inventory[0].txval == 100.0
    ensures MarketReturnTransform(c, [x], stock, sales).value.ledger[0].amt == 118.0
  {
    assert [x][..0] == [];
    assert MarketRows([x], c) == [x];
    assert Round3(100.0) == 100.0 by {
      assert (100.0 * 1000.0 + 0.5).Floor == 100000;
    }
    assert TaxExclusive(118.0, 9.0) == Some(100.0);
    var e := OpenedSales(c, x, BlankToNone(PartyCtin(sales, c, x.partyId)));
    var empty := MrState([], map[], []);
    assert MrFold(c, [], stock, sales) == Success(empty);
    assert MrFold(c, [x], stock, sales) == MrStep(c, empty, x, stock, sales);
    var st := MrState([x.inum], map[x.inum := e.(amt := 0.0 + 118.0)], [Inventory(c, x.inum, x.stockId, x.qty, 9.0, 100.0)]);
    assert StockRate(stock, c, x.stockId) == Some(9.0);
    assert x.inum !in empty.byInum;
    var a := Absorb(c, empty, x, Inventory(c, x.inum, x.stockId, x.qty, 9.0, 100.0), BlankToNone(PartyCtin(sales, c, x.partyId)));
    assert MrStep(c, empty, x, stock, sales) == Success(a);
    assert a.order == st.order && a.byInum == st.byInum && a.inventory == st.inventory;
    assert ValuesInOrder(st.order, st.byInum) == [e.(amt := 118.0)];
  }
}
