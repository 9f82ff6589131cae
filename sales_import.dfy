/**
 * The transform of the sales import: sales pass through, register returns are
 * matched against inventory credit notes, claim-service lines are aggregated,
 * and the three streams are emitted from the result.
 */
module SalesImport {
  import opened Wrappers
  import opened Rows
  import opened Window
  import opened Seqs
  import opened Matching
  import opened Claims
  import opened Emission

  /** `filter(company=c, date__gte=fromd, date__lte=tod, type=kind)` on the sales register report. */
  function RegisterOf(register: seq<RegisterRow>, c: Company, w: DateRange, kind: string): (r: seq<RegisterRow>)
    ensures forall x :: x in r <==> x in register && x.company == c && InRange(w, x.date) && x.kind == kind
  {
    if register == [] then []
    else
      var rest := RegisterOf(register[1..], c, w, kind);
      assert forall x :: x in register <==> x == register[0] || x in register[1..];
      var x := register[0];
      if x.company == c && InRange(w, x.date) && x.kind == kind then [x] + rest else rest
  }

  /** The same filter on the inventory (GSTR1) report. */
  function InventoryOf(gstr1: seq<Gstr1Row>, c: Company, w: DateRange, kind: string): (r: seq<Gstr1Row>)
    ensures forall x :: x in r <==> x in gstr1 && x.company == c && InRange(w, x.date) && x.kind == kind
  {
    if gstr1 == [] then []
    else
      var rest := InventoryOf(gstr1[1..], c, w, kind);
      assert forall x :: x in gstr1 <==> x == gstr1[0] || x in gstr1[1..];
      var x := gstr1[0];
      if x.company == c && InRange(w, x.date) && x.kind == kind then [x] + rest else rest
  }

  /** `order_by("amt")`: `ordered` holds the rows in ascending amount order; ties may come in any order. */
  predicate OrderedByAmt(ordered: seq<RegisterRow>, rows: seq<RegisterRow>)
  {
    multiset(ordered) == multiset(rows) && forall i, j :: 0 <= i < j < |ordered| ==> ordered[i].amt <= ordered[j].amt
  }

  /** `order_by("inv_amt")` on the inventory returns. */
  predicate OrderedByInvAmt(ordered: seq<Gstr1Row>, rows: seq<Gstr1Row>)
  {
    multiset(ordered) == multiset(rows) && forall i, j :: 0 <= i < j < |ordered| ==> ordered[i].invAmt <= ordered[j].invAmt
  }

  /** The two ordered return querysets of a run. */
  predicate ReturnsOrdered(register: seq<RegisterRow>, gstr1: seq<Gstr1Row>, c: Company, w: DateRange,
                           regReturns: seq<RegisterRow>, invReturns: seq<Gstr1Row>)
  {
    && OrderedByAmt(regReturns, RegisterOf(register, c, w, SALES_RETURN))
    && OrderedByInvAmt(invReturns, InventoryOf(gstr1, c, w, SALES_RETURN))
  }

  datatype SalesOutput = SalesOutput(ledger: seq<Sales>, discounts: seq<Discount>, inventory: seq<Inventory>)

  /** The inventory returns once relabelled in place. */
  function ReturnLines(invReturns: seq<Gstr1Row>): (r: seq<Gstr1Row>)
    ensures |r| == |invReturns|
  {
    seq(|invReturns|, i requires 0 <= i < |invReturns| => AsReturnLine(invReturns[i]))
  }

  /**
   * What the sales import inserts for company `c` and range `w`, or the error
   * that aborts it. `regReturns` and `invReturns` are the ordered return
   * querysets.
   */
  function SalesTransform(register: seq<RegisterRow>, gstr1: seq<Gstr1Row>, c: Company, w: DateRange,
                          regReturns: seq<RegisterRow>, invReturns: seq<Gstr1Row>): (r: Result<SalesOutput, Error>)
    requires ReturnsOrdered(register, gstr1, c, w, regReturns, invReturns)
    ensures r.Failure? ==> r.error.NoCreditNote?
    ensures r.Success? ==>
      && (forall e :: e in r.value.ledger ==> e.company == c)
      && (forall d :: d in r.value.discounts ==> d.company == c)
      && (forall v :: v in r.value.inventory ==> v.company == c)
  {
    var sales := RegisterOf(register, c, w, SALES);
    var salesInv := InventoryOf(gstr1, c, w, SALES);
    var claimsInv := InventoryOf(gstr1, c, w, CLAIM_SERVICE);
    match ResolveReturns(regReturns, CreditNoteQueues(invReturns))
    case Failure(e) => Failure(e)
    case Success(st) =>
      var claims := ClaimServiceRows(c, claimsInv);
      Success(SalesOutput(
        LedgerStream(c, sales + st.lines + claims),
        DiscountStream(c, ExcludeAllZero(sales) + st.lines + claims),
        InventoryStream(c, salesInv + ReturnLines(invReturns) + claimsInv)))
  }

  /**
   * The run aborts iff some register return finds no credit note left: its
   * rank among the returns of its (date, invoice) exceeds the number of
   * distinct credit notes filed under that key. The abort is always a
   * missing credit note.
   */
  lemma SalesTransformFailsIff(register: seq<RegisterRow>, gstr1: seq<Gstr1Row>, c: Company, w: DateRange,
                               regReturns: seq<RegisterRow>, invReturns: seq<Gstr1Row>)
    requires ReturnsOrdered(register, gstr1, c, w, regReturns, invReturns)
    ensures SalesTransform(register, gstr1, c, w, regReturns, invReturns).Success? <==>
      forall j :: 0 <= j < |regReturns| ==>
        Rank(regReturns, j) < |Dedup(CreditNotesFor(invReturns, RegKey(regReturns[j])))|
    ensures SalesTransform(register, gstr1, c, w, regReturns, invReturns).Failure? ==>
      SalesTransform(register, gstr1, c, w, regReturns, invReturns).error.NoCreditNote?
  {
    var q := CreditNoteQueues(invReturns);
    ResolveReturnsSpec(regReturns, q);
    forall k {
      QueueIsDistinctCreditNotes(invReturns, k);
    }
  }

  /**
   * On success the streams have exactly one ledger row per sale, matched
   * return and claim-service invoice, and one inventory row per sales,
   * return and claim-service inventory line.
   */
  lemma SalesOutputCounts(register: seq<RegisterRow>, gstr1: seq<Gstr1Row>, c: Company, w: DateRange,
                          regReturns: seq<RegisterRow>, invReturns: seq<Gstr1Row>)
    requires ReturnsOrdered(register, gstr1, c, w, regReturns, invReturns)
    requires SalesTransform(register, gstr1, c, w, regReturns, invReturns).Success?
    ensures var out := SalesTransform(register, gstr1, c, w, regReturns, invReturns).value;
      && |out.ledger| == |RegisterOf(register, c, w, SALES)| + |RegisterOf(register, c, w, SALES_RETURN)|
                         + |FirstPerInum(InventoryOf(gstr1, c, w, CLAIM_SERVICE))|
      && |out.inventory| == |InventoryOf(gstr1, c, w, SALES)| + |InventoryOf(gstr1, c, w, SALES_RETURN)|
                            + |InventoryOf(gstr1, c, w, CLAIM_SERVICE)|
  {
    ResolveReturnsSpec(regReturns, CreditNoteQueues(invReturns));
    assert |regReturns| == |RegisterOf(register, c, w, SALES_RETURN)| by {
      assert |multiset(regReturns)| == |multiset(RegisterOf(register, c, w, SALES_RETURN))|;
    }
    assert |invReturns| == |InventoryOf(gstr1, c, w, SALES_RETURN)| by {
      assert |multiset(invReturns)| == |multiset(InventoryOf(gstr1, c, w, SALES_RETURN))|;
    }
  }

  /**
   * The ledger row of the j-th register return (in ascending amount order):
   * billed under a credit note of an inventory return filed under the same
   * date and original invoice, with amount, TDS and roundoff negated (the
   * match negates the roundoff and the ledger copies it), and party, ctin and
   * TCS copied.
   */
  lemma MatchedReturnLedger(register: seq<RegisterRow>, gstr1: seq<Gstr1Row>, c: Company, w: DateRange,
                            regReturns: seq<RegisterRow>, invReturns: seq<Gstr1Row>, j: nat)
    requires ReturnsOrdered(register, gstr1, c, w, regReturns, invReturns)
    requires SalesTransform(register, gstr1, c, w, regReturns, invReturns).Success?
    requires j < |regReturns|
    ensures var out := SalesTransform(register, gstr1, c, w, regReturns, invReturns).value;
      var n := |RegisterOf(register, c, w, SALES)| + j;
      var r := regReturns[j];
      && n < |out.ledger|
      && out.ledger[n].kind == SALES_RETURN
      && out.ledger[n].amt == -r.amt
      && out.ledger[n].roundoff == -r.roundoff
      && out.ledger[n].tds == -r.tds
      && out.ledger[n].discount == -DiscountTotal(r)
      && out.ledger[n].date == r.date
      && out.ledger[n].partyId == r.partyId && out.ledger[n].ctin == r.ctin && out.ledger[n].tcs == r.tcs
      && Rank(regReturns, j) < |Dedup(CreditNotesFor(invReturns, RegKey(r)))|
      && out.ledger[n].inum == Dedup(CreditNotesFor(invReturns, RegKey(r)))[Rank(regReturns, j)]
      && exists i :: 0 <= i < |invReturns| && invReturns[i].creditNoteNo == out.ledger[n].inum
           && invReturns[i].date == r.date && invReturns[i].originalInvoiceNo == r.inum
  {
    var q := CreditNoteQueues(invReturns);
    ResolveReturnsSpec(regReturns, q);
    QueueIsDistinctCreditNotes(invReturns, RegKey(regReturns[j]));
    var st := ResolveReturns(regReturns, q).value;
    var sales := RegisterOf(register, c, w, SALES);
    var claims := ClaimServiceRows(c, InventoryOf(gstr1, c, w, CLAIM_SERVICE));
    var all := sales + st.lines + claims;
    assert all[|sales| + j] == st.lines[j];
    assert LedgerStream(c, all)[|sales| + j] == LedgerEntry(c, st.lines[j]);
    assert regReturns[j] in multiset(RegisterOf(register, c, w, SALES_RETURN));
    var cns := CreditNotesFor(invReturns, RegKey(regReturns[j]));
    var cn := Dedup(cns)[Rank(regReturns, j)];
    DedupSpec(cns);
    CreditNotesForSpec(invReturns, RegKey(regReturns[j]), cn);
  }

  /**
   * The ledger row of the i-th sale: the register row's columns, with amount,
   * discount total and TDS negated and roundoff and TCS copied.
   */
  lemma SalesLedgerRow(register: seq<RegisterRow>, gstr1: seq<Gstr1Row>, c: Company, w: DateRange,
                       regReturns: seq<RegisterRow>, invReturns: seq<Gstr1Row>, i: nat)
    requires ReturnsOrdered(register, gstr1, c, w, regReturns, invReturns)
    requires SalesTransform(register, gstr1, c, w, regReturns, invReturns).Success?
    requires i < |RegisterOf(register, c, w, SALES)|
    ensures var out := SalesTransform(register, gstr1, c, w, regReturns, invReturns).value;
      var r := RegisterOf(register, c, w, SALES)[i];
      && r in register && r.company == c && InRange(w, r.date)
      && i < |out.ledger|
      && out.ledger[i].company == c && out.ledger[i].kind == SALES
      && out.ledger[i].inum == r.inum && out.ledger[i].date == r.date
      && out.ledger[i].partyId == r.partyId && out.ledger[i].ctin == r.ctin
      && out.ledger[i].amt == -r.amt
      && out.ledger[i].discount == -(r.btpr + r.outpyt + r.ushop + r.pecom + r.otherDiscount)
      && out.ledger[i].roundoff == r.roundoff && out.ledger[i].tcs == r.tcs
      && out.ledger[i].tds == -r.tds
  {
    var st := ResolveReturns(regReturns, CreditNoteQueues(invReturns)).value;
    var sales := RegisterOf(register, c, w, SALES);
    var claims := ClaimServiceRows(c, InventoryOf(gstr1, c, w, CLAIM_SERVICE));
    var all := sales + st.lines + claims;
    assert sales[i] in sales;
    assert all[i] == sales[i];
  }

  /**
   * The ledger a successful run writes, in order: one row per sale, one per
   * register return (matched to its credit note, in ascending amount order),
   * then one per aggregated claim-service invoice.
   */
  lemma SalesLedgerStream(register: seq<RegisterRow>, gstr1: seq<Gstr1Row>, c: Company, w: DateRange,
                          regReturns: seq<RegisterRow>, invReturns: seq<Gstr1Row>)
    requires ReturnsOrdered(register, gstr1, c, w, regReturns, invReturns)
    requires SalesTransform(register, gstr1, c, w, regReturns, invReturns).Success?
    ensures ResolveReturns(regReturns, CreditNoteQueues(invReturns)).Success?
    ensures |ResolveReturns(regReturns, CreditNoteQueues(invReturns)).value.lines| == |regReturns|
    ensures SalesTransform(register, gstr1, c, w, regReturns, invReturns).value.ledger
      == LedgerStream(c, RegisterOf(register, c, w, SALES) + ResolveReturns(regReturns, CreditNoteQueues(invReturns)).value.lines
                         + ClaimServiceRows(c, InventoryOf(gstr1, c, w, CLAIM_SERVICE)))
  {
  }

  /** The inventory row of the i-th sales line comes first, copying its invoice, stock, quantity, rate and taxable value. */
  lemma SalesInventoryLine(register: seq<RegisterRow>, gstr1: seq<Gstr1Row>, c: Company, w: DateRange,
                           regReturns: seq<RegisterRow>, invReturns: seq<Gstr1Row>, i: nat)
    requires ReturnsOrdered(register, gstr1, c, w, regReturns, invReturns)
    requires SalesTransform(register, gstr1, c, w, regReturns, invReturns).Success?
    requires i < |InventoryOf(gstr1, c, w, SALES)|
    ensures var out := SalesTransform(register, gstr1, c, w, regReturns, invReturns).value;
      var g := InventoryOf(gstr1, c, w, SALES)[i];
      && g in gstr1 && g.company == c && InRange(w, g.date) && g.kind == SALES
      && i < |out.inventory| && out.inventory[i] == Inventory(c, g.inum, g.stockId, g.qty, g.rt, g.txval)
  {
    var salesInv := InventoryOf(gstr1, c, w, SALES);
    SalesInventoryStream(register, gstr1, c, w, regReturns, invReturns);
    InventoryStreamFirst(c, salesInv, ReturnLines(invReturns), InventoryOf(gstr1, c, w, CLAIM_SERVICE), i);
    assert salesInv[i] in salesInv;
  }

  /** The inventory rows end with the claim-service lines, each copying its line's fields. */
  lemma ClaimInventoryLine(register: seq<RegisterRow>, gstr1: seq<Gstr1Row>, c: Company, w: DateRange,
                           regReturns: seq<RegisterRow>, invReturns: seq<Gstr1Row>, k: nat)
    requires ReturnsOrdered(register, gstr1, c, w, regReturns, invReturns)
    requires SalesTransform(register, gstr1, c, w, regReturns, invReturns).Success?
    requires k < |InventoryOf(gstr1, c, w, CLAIM_SERVICE)|
    ensures var out := SalesTransform(register, gstr1, c, w, regReturns, invReturns).value;
      var g := InventoryOf(gstr1, c, w, CLAIM_SERVICE)[k];
      var n := |InventoryOf(gstr1, c, w, SALES)| + |invReturns| + k;
      && g in gstr1 && g.company == c && InRange(w, g.date) && g.kind == CLAIM_SERVICE
      && n < |out.inventory| && out.inventory[n] == Inventory(c, g.inum, g.stockId, g.qty, g.rt, g.txval)
  {
    var salesInv := InventoryOf(gstr1, c, w, SALES);
    var claimsInv := InventoryOf(gstr1, c, w, CLAIM_SERVICE);
    SalesInventoryStream(register, gstr1, c, w, regReturns, invReturns);
    InventoryStreamLast(c, salesInv + ReturnLines(invReturns), claimsInv, k);
    assert claimsInv[k] in claimsInv;
  }

  /** The inventory a successful run writes: sales lines, relabelled return lines, claim-service lines. */
  lemma SalesInventoryStream(register: seq<RegisterRow>, gstr1: seq<Gstr1Row>, c: Company, w: DateRange,
                             regReturns: seq<RegisterRow>, invReturns: seq<Gstr1Row>)
    requires ReturnsOrdered(register, gstr1, c, w, regReturns, invReturns)
    requires SalesTransform(register, gstr1, c, w, regReturns, invReturns).Success?
    ensures SalesTransform(register, gstr1, c, w, regReturns, invReturns).value.inventory
      == InventoryStream(c, InventoryOf(gstr1, c, w, SALES) + ReturnLines(invReturns) + InventoryOf(gstr1, c, w, CLAIM_SERVICE))
  {
  }

  /** The inventory row of the i-th inventory return: billed under its credit note, taxable value negated. */
  lemma ReturnInventoryLine(register: seq<RegisterRow>, gstr1: seq<Gstr1Row>, c: Company, w: DateRange,
                            regReturns: seq<RegisterRow>, invReturns: seq<Gstr1Row>, i: nat)
    requires ReturnsOrdered(register, gstr1, c, w, regReturns, invReturns)
    requires SalesTransform(register, gstr1, c, w, regReturns, invReturns).Success?
    requires i < |invReturns|
    ensures var out := SalesTransform(register, gstr1, c, w, regReturns, invReturns).value;
      var n := |InventoryOf(gstr1, c, w, SALES)| + i;
      var g := invReturns[i];
      n < |out.inventory| && out.inventory[n] == Inventory(c, g.creditNoteNo, g.stockId, g.qty, g.rt, -g.txval)
  {
    var salesInv := InventoryOf(gstr1, c, w, SALES);
    var lines := ReturnLines(invReturns);
    var claimsInv := InventoryOf(gstr1, c, w, CLAIM_SERVICE);
    SalesInventoryStream(register, gstr1, c, w, regReturns, invReturns);
    assert i < |lines| && lines[i] == AsReturnLine(invReturns[i]);
    InventoryStreamMiddle(c, salesInv, lines, claimsInv, i);
  }

  /**
   * Every ledger row of a successful run lies inside the replaced window: it
   * belongs to the company, is dated inside the range and has one of the
   * sales import's types.
   */
  lemma LedgerInsideWindow(register: seq<RegisterRow>, gstr1: seq<Gstr1Row>, c: Company, w: DateRange,
                           regReturns: seq<RegisterRow>, invReturns: seq<Gstr1Row>)
    requires ReturnsOrdered(register, gstr1, c, w, regReturns, invReturns)
    requires SalesTransform(register, gstr1, c, w, regReturns, invReturns).Success?
    ensures var out := SalesTransform(register, gstr1, c, w, regReturns, invReturns).value;
      forall i :: 0 <= i < |out.ledger| ==> InWindow(out.ledger[i], c, w, SALES_IMPORT_TYPES)
  {
    var out := SalesTransform(register, gstr1, c, w, regReturns, invReturns).value;
    forall i | 0 <= i < |out.ledger|
      ensures InWindow(out.ledger[i], c, w, SALES_IMPORT_TYPES)
    {
      LedgerRowInsideWindow(register, gstr1, c, w, regReturns, invReturns, i);
    }
  }

  lemma LedgerRowInsideWindow(register: seq<RegisterRow>, gstr1: seq<Gstr1Row>, c: Company, w: DateRange,
                              regReturns: seq<RegisterRow>, invReturns: seq<Gstr1Row>, i: nat)
    requires ReturnsOrdered(register, gstr1, c, w, regReturns, invReturns)
    requires SalesTransform(register, gstr1, c, w, regReturns, invReturns).Success?
    requires i < |SalesTransform(register, gstr1, c, w, regReturns, invReturns).value.ledger|
    ensures InWindow(SalesTransform(register, gstr1, c, w, regReturns, invReturns).value.ledger[i], c, w, SALES_IMPORT_TYPES)
  {
    var q := CreditNoteQueues(invReturns);
    var st := ResolveReturns(regReturns, q).value;
    var sales := RegisterOf(register, c, w, SALES);
    var claimsInv := InventoryOf(gstr1, c, w, CLAIM_SERVICE);
    var claims := ClaimServiceRows(c, claimsInv);
    var all := sales + st.lines + claims;
    var out := SalesTransform(register, gstr1, c, w, regReturns, invReturns).value;
    assert out.ledger[i] == LedgerEntry(c, all[i]);
    if i < |sales| {
      assert all[i] == sales[i] && sales[i] in sales;
    } else if i < |sales| + |st.lines| {
      var j := i - |sales|;
      ResolveReturnsSpec(regReturns, q);
      assert all[i] == st.lines[j];
      assert regReturns[j] in multiset(RegisterOf(register, c, w, SALES_RETURN));
    } else {
      var k := i - |sales| - |st.lines|;
      ClaimServiceRowsSpec(c, claimsInv);
      assert all[i] == claims[k];
      assert IsClaimRowOf(claims[k], c, claimsInv);
    }
  }

  /**
   * The discount rows of a successful run are those of every ledger source
   * row (excluding all-zero sales rows first drops nothing), and they add up
   * to the discounts of the ledger rows.
   */
  lemma DiscountsMatchLedger(register: seq<RegisterRow>, gstr1: seq<Gstr1Row>, c: Company, w: DateRange,
                             regReturns: seq<RegisterRow>, invReturns: seq<Gstr1Row>)
    requires ReturnsOrdered(register, gstr1, c, w, regReturns, invReturns)
    requires SalesTransform(register, gstr1, c, w, regReturns, invReturns).Success?
    ensures var out := SalesTransform(register, gstr1, c, w, regReturns, invReturns).value;
      SumDiscountAmt(out.discounts) == SumLedgerDiscount(out.ledger)
  {
    var st := ResolveReturns(regReturns, CreditNoteQueues(invReturns)).value;
    var sales := RegisterOf(register, c, w, SALES);
    var claims := ClaimServiceRows(c, InventoryOf(gstr1, c, w, CLAIM_SERVICE));
    var out := SalesTransform(register, gstr1, c, w, regReturns, invReturns).value;
    assert out.discounts == DiscountStream(c, ExcludeAllZero(sales) + st.lines + claims);
    assert out.ledger == LedgerStream(c, sales + st.lines + claims);
    StreamsReconcile(c, sales, st.lines, claims);
  }

  lemma StreamsReconcile(c: Company, sales: seq<RegisterRow>, lines: seq<RegisterRow>, claims: seq<RegisterRow>)
    ensures SumDiscountAmt(DiscountStream(c, ExcludeAllZero(sales) + lines + claims))
         == SumLedgerDiscount(LedgerStream(c, sales + lines + claims))
  {
    var rest := lines + claims;
    assert ExcludeAllZero(sales) + lines + claims == ExcludeAllZero(sales) + rest;
    assert sales + lines + claims == sales + rest;
    DiscountStreamAppend(c, ExcludeAllZero(sales), rest);
    DiscountStreamAppend(c, sales, rest);
    ExcludeAllZeroHarmless(c, sales);
    DiscountStreamReconciles(c, sales + rest);
  }

  lemma {:induction false} DiscountStreamAppend(c: Company, a: seq<RegisterRow>, b: seq<RegisterRow>)
    ensures DiscountStream(c, a + b) == DiscountStream(c, a) + DiscountStream(c, b)
  {
    if a != [] {
      assert (a + b)[1..] == a[1..] + b;
      DiscountStreamAppend(c, a[1..], b);
    } else {
      assert a + b == b;
    }
  }
}
