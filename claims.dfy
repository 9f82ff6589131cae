/**
 * Claim-service settlements: the inventory report's claim-service lines are
 * summed per invoice into one synthetic register row each, billed to the
 * settlement party, with tax and TDS derived from the summed values.
 */
module Claims {
  import opened Wrappers
  import opened Rows

  /** A `defaultdict` lookup with a zero default. */
  function Get0(m: map<string, Money>, k: string): Money
  {
    if k in m then m[k] else 0.0
  }

  /** The tax one claim-service line contributes: twice its rate, in percent, of its taxable value. */
  function LineTax(g: Gstr1Row): Money
  {
    2.0 * g.txval * g.rt / 100.0
  }

  /** Reference definition: the taxable value of the lines of invoice `inum`, summed. */
  function SumTxval(rows: seq<Gstr1Row>, inum: string): Money
  {
    if rows == [] then 0.0
    else
      var g := rows[|rows| - 1];
      SumTxval(rows[..|rows| - 1], inum) + (if g.inum == inum then g.txval else 0.0)
  }

  /** Reference definition: the tax of the lines of invoice `inum`, summed. */
  function SumTax(rows: seq<Gstr1Row>, inum: string): Money
  {
    if rows == [] then 0.0
    else
      var g := rows[|rows| - 1];
      SumTax(rows[..|rows| - 1], inum) + (if g.inum == inum then LineTax(g) else 0.0)
  }

  predicate HasInum(rows: seq<Gstr1Row>, inum: string)
  {
    exists g :: g in rows && g.inum == inum
  }

  /** `distinct("inum")`: one line per invoice, the first one, in order of first appearance. */
  function FirstPerInum(rows: seq<Gstr1Row>): seq<Gstr1Row>
  {
    if rows == [] then []
    else
      var d := FirstPerInum(rows[..|rows| - 1]);
      if HasInum(d, rows[|rows| - 1].inum) then d else d + [rows[|rows| - 1]]
  }

  /** The synthetic register row of one invoice; the discount, roundoff and TCS columns take their zero defaults. */
  function ClaimRow(c: Company, rep: Gstr1Row, txval: Money, tax: Money): RegisterRow
  {
    var tds := txval * TDS_PERCENT / 100.0;
    RegisterRow(c, CLAIM_SERVICE, rep.inum, rep.date, CLAIM_SERVICE_PARTY, rep.ctin,
                txval + tax - tds, 0.0, 0.0, 0.0, 0.0, 0.0, 0.0, 0.0, tds)
  }

  /**
   * The synthetic rows, one per invoice among the claim-service lines, in
   * order of first appearance: each settles its invoice's summed taxable
   * value and tax, split between the amount paid and the TDS withheld.
   */
  function ClaimServiceRows(c: Company, rows: seq<Gstr1Row>): (r: seq<RegisterRow>)
    ensures |r| == |FirstPerInum(rows)|
    ensures forall i :: 0 <= i < |r| ==> r[i].inum == FirstPerInum(rows)[i].inum
    ensures forall i :: 0 <= i < |r| ==> r[i].amt + r[i].tds == SumTxval(rows, r[i].inum) + SumTax(rows, r[i].inum)
  {
    var reps := FirstPerInum(rows);
    seq(|reps|, i requires 0 <= i < |reps| =>
      ClaimRow(c, reps[i], SumTxval(rows, reps[i].inum), SumTax(rows, reps[i].inum)))
  }

  /**
   * The representatives of `distinct("inum")` are lines of the input with
   * pairwise different invoice numbers, and every invoice of the input has one.
   */
  lemma {:induction false} FirstPerInumSpec(rows: seq<Gstr1Row>)
    ensures forall i :: 0 <= i < |FirstPerInum(rows)| ==> FirstPerInum(rows)[i] in rows
    ensures forall i, j :: 0 <= i < j < |FirstPerInum(rows)| ==> FirstPerInum(rows)[i].inum != FirstPerInum(rows)[j].inum
    ensures forall inum :: HasInum(FirstPerInum(rows), inum) <==> HasInum(rows, inum)
  {
    if rows != [] {
      var p := rows[..|rows| - 1];
      var g := rows[|rows| - 1];
      FirstPerInumSpec(p);
      assert rows == p + [g];
      var d := FirstPerInum(p);
      forall inum ensures HasInum(FirstPerInum(rows), inum) <==> HasInum(rows, inum) {
        if HasInum(rows, inum) {
          var h :| h in rows && h.inum == inum;
          if h in p {
            assert HasInum(p, inum);
          }
        }
      }
    }
  }

  /**
   * The accumulation loop and the loop over `distinct("inum")`: per-invoice
   * sums in two `defaultdict`s, then one synthetic row per invoice.
   */
  method AggregateClaims(c: Company, rows: seq<Gstr1Row>) returns (objs: seq<RegisterRow>)
    ensures objs == ClaimServiceRows(c, rows)
  {
    var txvalAcc, taxAcc := SumClaimLines(rows);
    var reps := FirstPerInum(rows);
    objs := [];
    var j := 0;
    while j < |reps|
      invariant 0 <= j <= |reps|
      invariant |objs| == j
      invariant forall m :: 0 <= m < j ==>
        objs[m] == ClaimRow(c, reps[m], SumTxval(rows, reps[m].inum), SumTax(rows, reps[m].inum))
    {
      var rep := reps[j];
      var txval := Get0(txvalAcc, rep.inum);
      var tax := Get0(taxAcc, rep.inum);
      var tds := (txval * TDS_PERCENT) / 100.0;
      var obj := RegisterRow(c, CLAIM_SERVICE, rep.inum, rep.date, CLAIM_SERVICE_PARTY, rep.ctin,
                             txval + tax - tds, 0.0, 0.0, 0.0, 0.0, 0.0, 0.0, 0.0, tds);
      objs := objs + [obj];
      j := j + 1;
    }
  }

  /** The accumulation loop: per-invoice sums of taxable value and tax in two `defaultdict`s. */
  method SumClaimLines(rows: seq<Gstr1Row>) returns (txvalAcc: map<string, Money>, taxAcc: map<string, Money>)
    ensures forall k :: Get0(txvalAcc, k) == SumTxval(rows, k)
    ensures forall k :: Get0(taxAcc, k) == SumTax(rows, k)
  {
    txvalAcc := map[];
    taxAcc := map[];
    var i := 0;
    while i < |rows|
      invariant 0 <= i <= |rows|
      invariant forall k :: Get0(txvalAcc, k) == SumTxval(rows[..i], k)
      invariant forall k :: Get0(taxAcc, k) == SumTax(rows[..i], k)
    {
      var g := rows[i];
      assert rows[..i + 1][..i] == rows[..i];
      txvalAcc := txvalAcc[g.inum := Get0(txvalAcc, g.inum) + g.txval];
      taxAcc := taxAcc[g.inum := Get0(taxAcc, g.inum) + 2.0 * g.txval * g.rt / 100.0];
      i := i + 1;
    }
    assert rows[..i] == rows;
  }

  /**
   * What a synthetic row states about its invoice: billed to the settlement
   * party, with taxable value, tax and TDS summed over the invoice's lines and
   * the amount net of TDS; its date and ctin are those of one of the lines.
   */
  ghost predicate IsClaimRowOf(o: RegisterRow, c: Company, rows: seq<Gstr1Row>)
  {
    && o.company == c
    && o.kind == CLAIM_SERVICE
    && o.partyId == CLAIM_SERVICE_PARTY
    && o.tds == SumTxval(rows, o.inum) * 2.0 / 100.0
    && o.amt == SumTxval(rows, o.inum) + SumTax(rows, o.inum) - o.tds
    && o.btpr == o.outpyt == o.ushop == o.pecom == o.otherDiscount == 0.0
    && o.roundoff == 0.0 && o.tcs == 0.0
    && (exists g :: g in rows && g.inum == o.inum && g.date == o.date && g.ctin == o.ctin)
  }

  /** Exactly one synthetic row per distinct invoice of the claim-service lines, each as `IsClaimRowOf` says. */
  lemma ClaimServiceRowsSpec(c: Company, rows: seq<Gstr1Row>)
    ensures forall i, j :: 0 <= i < j < |ClaimServiceRows(c, rows)| ==>
      ClaimServiceRows(c, rows)[i].inum != ClaimServiceRows(c, rows)[j].inum
    ensures forall g :: g in rows ==>
      exists i :: 0 <= i < |ClaimServiceRows(c, rows)| && ClaimServiceRows(c, rows)[i].inum == g.inum
    ensures forall i :: 0 <= i < |ClaimServiceRows(c, rows)| ==> IsClaimRowOf(ClaimServiceRows(c, rows)[i], c, rows)
  {
    var reps := FirstPerInum(rows);
    var out := ClaimServiceRows(c, rows);
    FirstPerInumSpec(rows);
    forall g | g in rows
      ensures exists i :: 0 <= i < |out| && out[i].inum == g.inum
    {
      assert HasInum(rows, g.inum);
      var h :| h in reps && h.inum == g.inum;
      var i :| 0 <= i < |reps| && reps[i] == h;
      assert out[i].inum == g.inum;
    }
    forall i | 0 <= i < |out|
      ensures IsClaimRowOf(out[i], c, rows)
    {
      assert reps[i] in rows;
      assert out[i] == ClaimRow(c, reps[i], SumTxval(rows, reps[i].inum), SumTax(rows, reps[i].inum));
    }
  }

  /**
   * Two claim-service lines of one invoice with taxable values 100 and 200 at
   * rate 5 give one row: TDS 6 and amount 300 + 30 - 6.
   */
  lemma ClaimServiceExample(c: Company, g1: Gstr1Row, g2: Gstr1Row)
    requires g1.inum == g2.inum && g1.txval == 100.0 && g2.txval == 200.0 && g1.rt == 5.0 && g2.rt == 5.0
    ensures |ClaimServiceRows(c, [g1, g2])| == 1
    ensures ClaimServiceRows(c, [g1, g2])[0].tds == 6.0
    ensures ClaimServiceRows(c, [g1, g2])[0].amt == 324.0
  {
    assert [g1, g2][..1] == [g1];
    assert [g1][..0] == [];
    assert FirstPerInum([g1]) == [g1];
    assert g1 in [g1];
    assert HasInum([g1], g2.inum);
    assert FirstPerInum([g1, g2]) == [g1];
    assert SumTxval([g1], g1.inum) == 100.0;
    assert SumTxval([g1, g2], g1.inum) == 300.0;
    assert SumTax([g1], g1.inum) == 10.0;
    assert SumTax([g1, g2], g1.inum) == 30.0;
  }
}
