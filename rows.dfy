/**
 * The rows the importers read (report rows) and write (ledger, discount,
 * inventory and master rows). Amounts are exact decimals, modelled as `real`;
 * dates are day numbers, compared as the database compares dates.
 */
module Rows {
  import opened Wrappers

  type Company = string
  type Date = int
  type Money = real

  /** A closed date range: rows with fromd <= date <= tod belong to it. */
  datatype DateRange = DateRange(fromd: Date, tod: Date)

  predicate InRange(w: DateRange, d: Date)
  {
    w.fromd <= d <= w.tod
  }

  // The values of the `type` column.
  const SALES: string := "sales"
  const SALES_RETURN: string := "salesreturn"
  const CLAIM_SERVICE: string := "claimservice"
  const DAMAGE: string := "damage"
  const SHORTAGE: string := "shortage"

  /** The counterparty of every synthetic claim-service row. */
  const CLAIM_SERVICE_PARTY: string := "HUL"
  /** TDS withheld on claim-service settlements, in percent. */
  const TDS_PERCENT: real := 2.0

  /** A row of the sales register report. */
  datatype RegisterRow = RegisterRow(
    company: Company,
    kind: string,
    inum: string,
    date: Date,
    partyId: string,
    ctin: Option<string>,
    amt: Money,
    btpr: Money,
    outpyt: Money,
    ushop: Money,
    pecom: Money,
    otherDiscount: Money,
    roundoff: Money,
    tcs: Money,
    tds: Money)

  /** A row of the inventory (GSTR1) report. */
  datatype Gstr1Row = Gstr1Row(
    company: Company,
    kind: string,
    inum: string,
    date: Date,
    creditNoteNo: string,
    originalInvoiceNo: string,
    stockId: string,
    qty: int,
    rt: real,
    txval: Money,
    invAmt: Money,
    ctin: Option<string>)

  /** A row of the damage/shortage report. */
  datatype DmgShtRow = DmgShtRow(
    company: Company,
    kind: string,
    inum: string,
    date: Date,
    partyId: string,
    stockId: string,
    qty: int,
    amt: Money,
    returnFrom: string)

  /** A ledger row (`Sales`). */
  datatype Sales = Sales(
    company: Company,
    kind: string,
    inum: string,
    date: Date,
    partyId: string,
    ctin: Option<string>,
    amt: Money,
    discount: Money,
    roundoff: Money,
    tcs: Money,
    tds: Money)

  /** A stored ledger row with the primary key the database gave it. */
  datatype SalesRecord = SalesRecord(id: nat, entry: Sales)

  /** The five discount columns of a register row, in the order they are emitted. */
  datatype DiscountType = Btpr | Outpyt | Ushop | Pecom | OtherDiscount

  datatype Discount = Discount(company: Company, billId: string, subType: DiscountType, amt: Money)

  datatype Inventory = Inventory(
    company: Company,
    billId: string,
    stockId: string,
    qty: int,
    rt: real,
    txval: Money)

  /** Why an atomic run aborts (and is rolled back). */
  datatype Error =
    | NoCreditNote(date: Date, inum: string)   // `pop(0)` on an empty credit-note queue
    | ZeroDivision(stockId: string)            // 100 + 2 * rt == 0 in the market-return formula
    | ConflictTwiceInBatch                     // one upsert batch names the same key twice

  /** The stock master columns other than its (company, name) key. */
  datatype StockInfo = StockInfo(hsn: string, rt: real)

  /** A row of the stock HSN/rate report. */
  datatype StockReportRow = StockReportRow(company: Company, stockId: string, hsn: string, rt: real)

  /** The party master columns other than its (company, code) key. */
  datatype PartyInfo = PartyInfo(name: string, addr: string, masterCode: string, phone: string, ctin: Option<string>)

  /** A row of the party report. */
  datatype PartyReportRow = PartyReportRow(
    company: Company,
    name: string,
    addr: string,
    code: string,
    masterCode: string,
    phone: string,
    ctin: Option<string>)
}
