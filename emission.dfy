/**
 * The three output streams of the sales import: one ledger row per
 * register-shaped row, one discount row per non-zero discount column, one
 * inventory row per inventory line.
 */
module Emission {
  import opened Rows

  /** The five discount columns of a row, summed. */
  function DiscountTotal(r: RegisterRow): Money
  {
    r.btpr + r.outpyt + r.ushop + r.pecom + r.otherDiscount
  }

  /**
   * The ledger row of one register-shaped row: the report's signs are the
   * ledger's inverted, and its discount is the five discount columns negated.
   */
  function LedgerEntry(c: Company, r: RegisterRow): (e: Sales)
    ensures e.company == c && e.kind == r.kind && e.inum == r.inum && e.date == r.date
    ensures e.amt == -r.amt && e.tds == -r.tds && e.roundoff == r.roundoff && e.tcs == r.tcs
  {
    Sales(c, r.kind, r.inum, r.date, r.partyId, r.ctin, -r.amt, -DiscountTotal(r), r.roundoff, r.tcs, -r.tds)
  }

  function LedgerStream(c: Company, rows: seq<RegisterRow>): (out: seq<Sales>)
    ensures |out| == |rows|
    ensures forall e :: e in out ==> e.company == c
  {
    seq(|rows|, i requires 0 <= i < |rows| => LedgerEntry(c, rows[i]))
  }

  function DiscountValue(r: RegisterRow, t: DiscountType): Money
  {
    match t
    case Btpr => r.btpr
    case Outpyt => r.outpyt
    case Ushop => r.ushop
    case Pecom => r.pecom
    case OtherDiscount => r.otherDiscount
  }

  /** The discount row of column `t`, or none when that column is zero. */
  function DiscountIf(c: Company, r: RegisterRow, t: DiscountType): seq<Discount>
  {
    if DiscountValue(r, t) != 0.0 then [Discount(c, r.inum, t, -DiscountValue(r, t))] else []
  }

  /**
   * The discount rows of one row, in the order btpr, outpyt, ushop, pecom,
   * other_discount: at most one per column, each billed to the row and non-zero.
   */
  function DiscountsOf(c: Company, r: RegisterRow): (ds: seq<Discount>)
    ensures |ds| <= 5
    ensures forall d :: d in ds ==> d.company == c && d.billId == r.inum && d.amt != 0.0
  {
    DiscountIf(c, r, Btpr) + DiscountIf(c, r, Outpyt) + DiscountIf(c, r, Ushop)
    + DiscountIf(c, r, Pecom) + DiscountIf(c, r, OtherDiscount)
  }

  /** The discount rows of all rows, in order: at most five per row, all of the company and non-zero. */
  function DiscountStream(c: Company, rows: seq<RegisterRow>): (ds: seq<Discount>)
    ensures |ds| <= 5 * |rows|
    ensures forall d :: d in ds ==> d.company == c && d.amt != 0.0
  {
    if rows == [] then [] else DiscountsOf(c, rows[0]) + DiscountStream(c, rows[1..])
  }

  predicate AllZero(r: RegisterRow)
  {
    r.btpr == 0.0 && r.outpyt == 0.0 && r.ushop == 0.0 && r.pecom == 0.0 && r.otherDiscount == 0.0
  }

  /** `exclude(btpr=0, outpyt=0, ushop=0, pecom=0, other_discount=0)`: drops the rows whose five columns are all zero. */
  function ExcludeAllZero(rows: seq<RegisterRow>): (out: seq<RegisterRow>)
    ensures forall x :: x in out <==> x in rows && !AllZero(x)
    ensures |out| <= |rows|
  {
    if rows == [] then []
    else
      assert forall x :: x in rows <==> x == rows[0] || x in rows[1..];
      (if AllZero(rows[0]) then [] else [rows[0]]) + ExcludeAllZero(rows[1..])
  }

  function InventoryLine(c: Company, g: Gstr1Row): Inventory
  {
    Inventory(c, g.inum, g.stockId, g.qty, g.rt, g.txval)
  }

  function InventoryStream(c: Company, rows: seq<Gstr1Row>): (out: seq<Inventory>)
    ensures |out| == |rows|
    ensures forall v :: v in out ==> v.company == c
  {
    seq(|rows|, i requires 0 <= i < |rows| => InventoryLine(c, rows[i]))
  }

  /** The inventory row at position `k` of three consecutive parts comes from the first part. */
  lemma InventoryStreamFirst(c: Company, a: seq<Gstr1Row>, b: seq<Gstr1Row>, d: seq<Gstr1Row>, k: nat)
    requires k < |a|
    ensures k < |InventoryStream(c, a + b + d)|
    ensures InventoryStream(c, a + b + d)[k] == Inventory(c, a[k].inum, a[k].stockId, a[k].qty, a[k].rt, a[k].txval)
  {
    assert (a + b + d)[k] == a[k];
  }

  /** The inventory row at position `|a| + k` of two consecutive parts comes from the second part. */
  lemma InventoryStreamLast(c: Company, a: seq<Gstr1Row>, b: seq<Gstr1Row>, k: nat)
    requires k < |b|
    ensures |a| + k < |InventoryStream(c, a + b)|
    ensures InventoryStream(c, a + b)[|a| + k] == Inventory(c, b[k].inum, b[k].stockId, b[k].qty, b[k].rt, b[k].txval)
  {
    assert (a + b)[|a| + k] == b[k];
  }

  /** The inventory row at position `|a| + k` of three consecutive parts comes from the middle part. */
  lemma InventoryStreamMiddle(c: Company, a: seq<Gstr1Row>, b: seq<Gstr1Row>, d: seq<Gstr1Row>, k: nat)
    requires k < |b|
    ensures |a| + k < |InventoryStream(c, a + b + d)|
    ensures InventoryStream(c, a + b + d)[|a| + k] == InventoryLine(c, b[k])
  {
    assert (a + b + d)[|a| + k] == b[k];
  }

  function SumDiscountAmt(ds: seq<Discount>): Money
  {
    if ds == [] then 0.0 else ds[0].amt + SumDiscountAmt(ds[1..])
  }

  lemma {:induction false} SumDiscountAmtAppend(a: seq<Discount>, b: seq<Discount>)
    ensures SumDiscountAmt(a + b) == SumDiscountAmt(a) + SumDiscountAmt(b)
  {
    if a != [] {
      assert (a + b)[1..] == a[1..] + b;
      SumDiscountAmtAppend(a[1..], b);
    } else {
      assert a + b == b;
    }
  }

  /** The discount row of one column, if any, carries that column negated. */
  lemma DiscountIfSpec(c: Company, r: RegisterRow, t: DiscountType)
    ensures SumDiscountAmt(DiscountIf(c, r, t)) == -DiscountValue(r, t)
    ensures |DiscountIf(c, r, t)| == if DiscountValue(r, t) != 0.0 then 1 else 0
    ensures forall d :: d in DiscountIf(c, r, t) <==>
      DiscountValue(r, t) != 0.0 && d == Discount(c, r.inum, t, -DiscountValue(r, t))
  {
    if DiscountValue(r, t) != 0.0 {
      assert DiscountIf(c, r, t)[1..] == [];
    }
  }

  /**
   * The discount rows of one row add up to its five discount columns, negated:
   * the discount its ledger row carries.
   */
  lemma DiscountsOfSum(c: Company, r: RegisterRow)
    ensures SumDiscountAmt(DiscountsOf(c, r)) == -DiscountTotal(r) == LedgerEntry(c, r).discount
  {
    var a, b, u, p, o := DiscountIf(c, r, Btpr), DiscountIf(c, r, Outpyt), DiscountIf(c, r, Ushop),
                         DiscountIf(c, r, Pecom), DiscountIf(c, r, OtherDiscount);
    DiscountIfSpec(c, r, Btpr);
    DiscountIfSpec(c, r, Outpyt);
    DiscountIfSpec(c, r, Ushop);
    DiscountIfSpec(c, r, Pecom);
    DiscountIfSpec(c, r, OtherDiscount);
    SumDiscountAmtAppend(a, b);
    SumDiscountAmtAppend(a + b, u);
    SumDiscountAmtAppend(a + b + u, p);
    SumDiscountAmtAppend(a + b + u + p, o);
  }

  function SumLedgerDiscount(es: seq<Sales>): Money
  {
    if es == [] then 0.0 else es[0].discount + SumLedgerDiscount(es[1..])
  }

  /** Over a whole stream, the discount rows add up to the discounts of the ledger rows. */
  lemma {:induction false} DiscountStreamReconciles(c: Company, rows: seq<RegisterRow>)
    ensures SumDiscountAmt(DiscountStream(c, rows)) == SumLedgerDiscount(LedgerStream(c, rows))
  {
    if rows != [] {
      DiscountStreamReconciles(c, rows[1..]);
      DiscountStreamHead(c, rows);
      LedgerStreamHead(c, rows);
      DiscountsOfSum(c, rows[0]);
    }
  }

  lemma DiscountStreamHead(c: Company, rows: seq<RegisterRow>)
    requires rows != []
    ensures SumDiscountAmt(DiscountStream(c, rows)) == SumDiscountAmt(DiscountsOf(c, rows[0])) + SumDiscountAmt(DiscountStream(c, rows[1..]))
  {
    SumDiscountAmtAppend(DiscountsOf(c, rows[0]), DiscountStream(c, rows[1..]));
  }

  lemma LedgerStreamHead(c: Company, rows: seq<RegisterRow>)
    requires rows != []
    ensures SumLedgerDiscount(LedgerStream(c, rows)) == LedgerEntry(c, rows[0]).discount + SumLedgerDiscount(LedgerStream(c, rows[1..]))
  {
    assert LedgerStream(c, rows)[0] == LedgerEntry(c, rows[0]);
    assert LedgerStream(c, rows)[1..] == LedgerStream(c, rows[1..]);
  }

  /**
   * The discount rows of one row: each carries the row's invoice number and a
   * non-zero negated column value; a column yields a row iff it is non-zero,
   * and there are as many rows as non-zero columns.
   */
  lemma DiscountsOfSpec(c: Company, r: RegisterRow)
    ensures forall d :: d in DiscountsOf(c, r) ==>
      d.company == c && d.billId == r.inum && d.amt == -DiscountValue(r, d.subType) && d.amt != 0.0
    ensures forall t :: (exists d :: d in DiscountsOf(c, r) && d.subType == t) <==> DiscountValue(r, t) != 0.0
    ensures |DiscountsOf(c, r)| ==
      (if r.btpr != 0.0 then 1 else 0) + (if r.outpyt != 0.0 then 1 else 0) + (if r.ushop != 0.0 then 1 else 0)
      + (if r.pecom != 0.0 then 1 else 0) + (if r.otherDiscount != 0.0 then 1 else 0)
  {
    forall d | d in DiscountsOf(c, r)
      ensures d.company == c && d.billId == r.inum && d.amt == -DiscountValue(r, d.subType) && d.amt != 0.0
    {
      InDiscountsOf(c, r, d);
      DiscountIfSpec(c, r, d.subType);
    }
    forall t ensures (exists d :: d in DiscountsOf(c, r) && d.subType == t) <==> DiscountValue(r, t) != 0.0 {
      DiscountIfSpec(c, r, t);
      if DiscountValue(r, t) != 0.0 {
        var d := Discount(c, r.inum, t, -DiscountValue(r, t));
        InDiscountsOf(c, r, d);
      } else if exists d :: d in DiscountsOf(c, r) && d.subType == t {
        var d :| d in DiscountsOf(c, r) && d.subType == t;
        InDiscountsOf(c, r, d);
      }
    }
    DiscountsOfLength(c, r);
  }

  /** A discount row belongs to a row's discounts exactly when it is the one of its own column. */
  lemma InDiscountsOf(c: Company, r: RegisterRow, d: Discount)
    ensures d in DiscountsOf(c, r) <==> d in DiscountIf(c, r, d.subType)
  {
    DiscountIfSpec(c, r, Btpr);
    DiscountIfSpec(c, r, Outpyt);
    DiscountIfSpec(c, r, Ushop);
    DiscountIfSpec(c, r, Pecom);
    DiscountIfSpec(c, r, OtherDiscount);
  }

  lemma DiscountsOfLength(c: Company, r: RegisterRow)
    ensures |DiscountsOf(c, r)| ==
      (if r.btpr != 0.0 then 1 else 0) + (if r.outpyt != 0.0 then 1 else 0) + (if r.ushop != 0.0 then 1 else 0)
      + (if r.pecom != 0.0 then 1 else 0) + (if r.otherDiscount != 0.0 then 1 else 0)
  {
    DiscountIfSpec(c, r, Btpr);
    DiscountIfSpec(c, r, Outpyt);
    DiscountIfSpec(c, r, Ushop);
    DiscountIfSpec(c, r, Pecom);
    DiscountIfSpec(c, r, OtherDiscount);
  }

  /** A row whose five discount columns are zero yields no discount row; one with a single non-zero column yields exactly one. */
  lemma ZeroSuppression(c: Company, r: RegisterRow)
    ensures AllZero(r) <==> DiscountsOf(c, r) == []
    ensures (r.btpr != 0.0 && r.outpyt == 0.0 && r.ushop == 0.0 && r.pecom == 0.0 && r.otherDiscount == 0.0)
      ==> |DiscountsOf(c, r)| == 1 && DiscountsOf(c, r)[0] == Discount(c, r.inum, Btpr, -r.btpr)
  {
    DiscountsOfSpec(c, r);
  }

  /** Excluding the all-zero rows before emitting discounts changes nothing: those rows emit none. */
  lemma {:induction false} ExcludeAllZeroHarmless(c: Company, rows: seq<RegisterRow>)
    ensures DiscountStream(c, ExcludeAllZero(rows)) == DiscountStream(c, rows)
  {
    if rows != [] {
      ExcludeAllZeroHarmless(c, rows[1..]);
      ZeroSuppression(c, rows[0]);
      if AllZero(rows[0]) {
        assert ExcludeAllZero(rows) == ExcludeAllZero(rows[1..]);
      } else {
        assert ExcludeAllZero(rows) == [rows[0]] + ExcludeAllZero(rows[1..]);
        assert ([rows[0]] + ExcludeAllZero(rows[1..]))[1..] == ExcludeAllZero(rows[1..]);
      }
    }
  }

  /** A discount row is in the stream iff it is a discount row of one of the rows. */
  lemma {:induction false} DiscountStreamMembers(c: Company, rows: seq<RegisterRow>, d: Discount)
    ensures d in DiscountStream(c, rows) <==> exists i :: 0 <= i < |rows| && d in DiscountsOf(c, rows[i])
  {
    if rows != [] {
      DiscountStreamMembers(c, rows[1..], d);
      if exists i :: 0 <= i < |rows| && d in DiscountsOf(c, rows[i]) {
        var i :| 0 <= i < |rows| && d in DiscountsOf(c, rows[i]);
        if i > 0 {
          assert rows[1..][i - 1] == rows[i];
        }
      }
      if exists i :: 0 <= i < |rows[1..]| && d in DiscountsOf(c, rows[1..][i]) {
        var i :| 0 <= i < |rows[1..]| && d in DiscountsOf(c, rows[1..][i]);
        assert rows[i + 1] == rows[1..][i];
      }
    }
  }

  function SumAmt(rows: seq<RegisterRow>): Money
  {
    if rows == [] then 0.0 else rows[0].amt + SumAmt(rows[1..])
  }

  function SumLedgerAmt(es: seq<Sales>): Money
  {
    if es == [] then 0.0 else es[0].amt + SumLedgerAmt(es[1..])
  }

  /** The ledger stream's amounts total the negated total of the report's amounts. */
  lemma {:induction false} LedgerTotalIsNegated(c: Company, rows: seq<RegisterRow>)
    ensures SumLedgerAmt(LedgerStream(c, rows)) == -SumAmt(rows)
  {
    if rows != [] {
      LedgerTotalIsNegated(c, rows[1..]);
      assert LedgerStream(c, rows)[1..] == LedgerStream(c, rows[1..]);
    }
  }
}
