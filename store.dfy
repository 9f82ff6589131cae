/**
 * The tables the importers write and the importers' entry points:
 * `batch_delete`, each `delete_before_insert`, each `run_atomic` (one
 * database transaction: on an exception nothing it wrote survives) and the
 * `delete_all` branch of `SimpleImport.basic_run`.
 */
module Store {
  import opened Wrappers
  import opened Rows
  import opened Seqs
  import opened Window
  import opened Matching
  import opened Claims
  import opened Emission
  import opened SalesImport
  import opened MarketReturn
  import opened Master

  /** The `batch_size` the sales importer passes to `batch_delete`. */
  const DELETE_BATCH: nat := 100

  /** The keyed master tables `SimpleImport.basic_run` can empty. */
  datatype MasterModel = StockModel | PartyModel

  class Database {
    /** The `Sales` ledger, in insertion order, each row under its primary key. */
    var sales: seq<SalesRecord>
    /** The key the next inserted ledger row receives. */
    var nextId: nat
    var discounts: seq<Discount>
    var inventory: seq<Inventory>
    /** The `Stock` table, keyed by (company, name). */
    var stock: map<Key, StockInfo>
    /** The `Party` table, keyed by (company, code). */
    var parties: map<Key, PartyInfo>

    /** Primary keys are unique and below the next key to hand out. */
    ghost predicate Valid()
      reads this
    {
      UniqueIds(sales) && forall x :: x in sales ==> x.id < nextId
    }

    constructor ()
      ensures Valid()
      ensures sales == [] && nextId == 0 && discounts == [] && inventory == []
      ensures stock == map[] && parties == map[]
    {
      sales := [];
      nextId := 0;
      discounts := [];
      inventory := [];
      stock := map[];
      parties := map[];
    }

    /**
     * `batch_delete` on the queryset of the company's ledger rows of `types`
     * dated inside `w`: the keys are listed first, then deleted `batchSize`
     * at a time. `chunks` are the key lists of the successive deletes.
     */
    method BatchDelete(c: Company, w: DateRange, types: set<string>, batchSize: nat) returns (ghost chunks: seq<seq<nat>>)
      requires Valid()
      requires batchSize > 0
      modifies this`sales
      ensures Valid()
      ensures sales == KeepOutside(old(sales), c, w, types)
      ensures chunks == Batches(WindowIds(old(sales), c, w, types), batchSize)
    {
      ghost var t0 := sales;
      var pks := WindowIds(sales, c, w, types);
      chunks := [];
      assert SetOf(pks[..0]) == {};
      RemoveNoIds(t0);
      assert pks[0..] == pks;
      var i := 0;
      while i < |pks|
        invariant 0 <= i <= |pks|
        invariant sales == RemoveIds(t0, SetOf(pks[..i]))
        invariant chunks + Batches(pks[i..], batchSize) == Batches(pks, batchSize)
        decreases |pks| - i
      {
        var j := if i + batchSize <= |pks| then i + batchSize else |pks|;
        var batch := pks[i..j];
        sales := RemoveIds(sales, SetOf(batch));
        DeleteStep(t0, pks, i, j);
        BatchStep(pks, i, j, batchSize);
        assert chunks + [batch] + Batches(pks[j..], batchSize) == chunks + Batches(pks[i..], batchSize);
        chunks := chunks + [batch];
        i := j;
      }
      assert pks[..i] == pks;
      assert pks[i..] == [];
      assert chunks + [] == chunks;
      RemoveWindowIds(t0, c, w, types);
      KeepOutsideUnique(t0, c, w, types);
    }

    /** `SalesImport.delete_before_insert`: the window of the three sales types goes, 100 keys per delete. */
    method SalesDeleteBeforeInsert(c: Company, w: DateRange)
      requires Valid()
      modifies this`sales
      ensures Valid()
      ensures sales == KeepOutside(old(sales), c, w, SALES_IMPORT_TYPES)
    {
      ghost var chunks := BatchDelete(c, w, SALES_IMPORT_TYPES, DELETE_BATCH);
    }

    /** `MarketReturnImport.delete_before_insert`: the window of damage and shortage rows goes in one delete. */
    method MarketReturnDeleteBeforeInsert(c: Company, w: DateRange)
      requires Valid()
      modifies this`sales
      ensures Valid()
      ensures sales == KeepOutside(old(sales), c, w, MARKET_RETURN_TYPES)
    {
      KeepOutsideUnique(sales, c, w, MARKET_RETURN_TYPES);
      sales := KeepOutside(sales, c, w, MARKET_RETURN_TYPES);
    }

    /** `Sales.objects.bulk_create`: the rows are appended under fresh consecutive keys. */
    method InsertSales(es: seq<Sales>)
      requires Valid()
      modifies this`sales, this`nextId
      ensures Valid()
      ensures sales == old(sales) + Inserted(es, old(nextId))
      ensures nextId == old(nextId) + |es|
    {
      InsertedKeepsUnique(sales, es, nextId);
      sales := sales + Inserted(es, nextId);
      nextId := nextId + |es|;
    }

    /**
     * `SalesImport.run_atomic`: replace the window of the sales types with the
     * ledger, discount and inventory rows built from the two reports. A
     * register return without a credit note aborts the transaction, which
     * undoes the delete.
     */
    method SalesRunAtomic(c: Company, w: DateRange, register: seq<RegisterRow>, gstr1: seq<Gstr1Row>,
                          regReturns: seq<RegisterRow>, invReturns: seq<Gstr1Row>)
      returns (res: Result<SalesOutput, Error>)
      requires Valid()
      requires ReturnsOrdered(register, gstr1, c, w, regReturns, invReturns)
      modifies this`sales, this`nextId, this`discounts, this`inventory
      ensures Valid()
      ensures res == SalesTransform(register, gstr1, c, w, regReturns, invReturns)
      ensures res.Success? ==>
        && sales == KeepOutside(old(sales), c, w, SALES_IMPORT_TYPES) + Inserted(res.value.ledger, old(nextId))
        && nextId == old(nextId) + |res.value.ledger|
        && discounts == old(discounts) + res.value.discounts
        && inventory == old(inventory) + res.value.inventory
      ensures res.Failure? ==>
        sales == old(sales) && nextId == old(nextId) && discounts == old(discounts) && inventory == old(inventory)
    {
      var savedSales := sales;
      SalesDeleteBeforeInsert(c, w);
      var salesRows := RegisterOf(register, c, w, SALES);
      var salesInv := InventoryOf(gstr1, c, w, SALES);
      var claimsInv := InventoryOf(gstr1, c, w, CLAIM_SERVICE);
      var lines, queues := QueueCreditNotes(invReturns);
      assert lines == ReturnLines(invReturns);
      var matched := MatchReturns(regReturns, queues);
      if matched.Failure? {
        sales := savedSales;
        res := Failure(matched.error);
        return;
      }
      var claims := AggregateClaims(c, claimsInv);
      var ledger := LedgerStream(c, salesRows + matched.value + claims);
      InsertSales(ledger);
      var ds := DiscountStream(c, ExcludeAllZero(salesRows) + matched.value + claims);
      discounts := discounts + ds;
      var inv := InventoryStream(c, salesInv + lines + claimsInv);
      inventory := inventory + inv;
      res := Success(SalesOutput(ledger, ds, inv));
    }

    /**
     * `MarketReturnImport.run_atomic` as written: the company's market
     * returns, of every date, are appended; nothing is deleted first. The
     * party's ctin comes from the ledger as it stands before the insert.
     */
    method MarketReturnRunAtomic(c: Company, dmg: seq<DmgShtRow>) returns (res: Result<MrOutput, Error>)
      requires Valid()
      modifies this`sales, this`nextId, this`inventory
      ensures Valid()
      ensures res == MarketReturnTransform(c, dmg, stock, old(sales))
      ensures res.Success? ==>
        && sales == old(sales) + Inserted(res.value.ledger, old(nextId))
        && nextId == old(nextId) + |res.value.ledger|
        && inventory == old(inventory) + res.value.inventory
      ensures res.Failure? ==> sales == old(sales) && nextId == old(nextId) && inventory == old(inventory)
    {
      res := MarketReturnRows(c, dmg, stock, sales);
      if res.Success? {
        InsertSales(res.value.ledger);
        inventory := inventory + res.value.inventory;
      }
    }

    /**
     * The market-return import with its window: `delete_before_insert` first,
     * then only the returns dated inside the range.
     */
    method MarketReturnRunWindowed(c: Company, w: DateRange, dmg: seq<DmgShtRow>) returns (res: Result<MrOutput, Error>)
      requires Valid()
      modifies this`sales, this`nextId, this`inventory
      ensures Valid()
      ensures res == MarketReturnTransform(c, DatedIn(dmg, w), stock, KeepOutside(old(sales), c, w, MARKET_RETURN_TYPES))
      ensures res.Success? ==>
        && sales == KeepOutside(old(sales), c, w, MARKET_RETURN_TYPES) + Inserted(res.value.ledger, old(nextId))
        && nextId == old(nextId) + |res.value.ledger|
        && inventory == old(inventory) + res.value.inventory
      ensures res.Failure? ==> sales == old(sales) && nextId == old(nextId) && inventory == old(inventory)
    {
      var savedSales := sales;
      MarketReturnDeleteBeforeInsert(c, w);
      res := MarketReturnRows(c, DatedIn(dmg, w), stock, sales);
      if res.Success? {
        InsertSales(res.value.ledger);
        inventory := inventory + res.value.inventory;
      } else {
        sales := savedSales;
      }
    }

    /** `StockImport.run_atomic`: the company's stock report rows are merged into `Stock`, 2000 per statement. */
    method StockRunAtomic(c: Company, report: seq<StockReportRow>) returns (res: Result<(), Error>)
      modifies this`stock
      ensures res.Failure? <==> SomeBatchConflicts(Batches(StockRowsFor(report, c), UPSERT_BATCH))
      ensures res.Success? ==> stock == UpsertRows(old(stock), StockRowsFor(report, c))
      ensures res.Failure? ==> stock == old(stock) && res.error == ConflictTwiceInBatch
    {
      var rows := StockRowsFor(report, c);
      var batches := Batches(rows, UPSERT_BATCH);
      var merged := MergeBatches(stock, batches);
      BulkUpsertSpec(stock, batches);
      BatchesFlatten(rows, UPSERT_BATCH);
      BulkUpsertErrors(stock, batches);
      if merged.Success? {
        stock := merged.value;
        res := Success(());
      } else {
        res := Failure(merged.error);
      }
    }

    /** `PartyImport.run_atomic`: the company's party report rows are merged into `Party`, 2000 per statement. */
    method PartyRunAtomic(c: Company, report: seq<PartyReportRow>) returns (res: Result<(), Error>)
      modifies this`parties
      ensures res.Failure? <==> SomeBatchConflicts(Batches(PartyRowsFor(report, c), UPSERT_BATCH))
      ensures res.Success? ==> parties == UpsertRows(old(parties), PartyRowsFor(report, c))
      ensures res.Failure? ==> parties == old(parties) && res.error == ConflictTwiceInBatch
    {
      var rows := PartyRowsFor(report, c);
      var batches := Batches(rows, UPSERT_BATCH);
      var merged := MergeBatches(parties, batches);
      BulkUpsertSpec(parties, batches);
      BatchesFlatten(rows, UPSERT_BATCH);
      BulkUpsertErrors(parties, batches);
      if merged.Success? {
        parties := merged.value;
        res := Success(());
      } else {
        res := Failure(merged.error);
      }
    }

    /** `SimpleImport.basic_run`: with `delete_all`, the company's rows of the model's table are deleted. */
    method SimpleBasicRun(m: MasterModel, c: Company, deleteAll: bool)
      modifies this`stock, this`parties
      ensures deleteAll && m == StockModel ==> stock == DropCompany(old(stock), c)
      ensures deleteAll && m == PartyModel ==> parties == DropCompany(old(parties), c)
      ensures !deleteAll || m != StockModel ==> stock == old(stock)
      ensures !deleteAll || m != PartyModel ==> parties == old(parties)
    {
      if deleteAll {
        match m
        case StockModel => stock := DropCompany(stock, c);
        case PartyModel => parties := DropCompany(parties, c);
      }
    }
  }

  /** Deleting the next chunk of keys after the earlier ones deletes the keys listed so far. */
  lemma DeleteStep(t: seq<SalesRecord>, pks: seq<nat>, i: nat, j: nat)
    requires i <= j <= |pks|
    ensures RemoveIds(RemoveIds(t, SetOf(pks[..i])), SetOf(pks[i..j])) == RemoveIds(t, SetOf(pks[..j]))
  {
    RemoveIdsTwice(t, SetOf(pks[..i]), SetOf(pks[i..j]));
    assert pks[..j] == pks[..i] + pks[i..j];
    SetOfAppend(pks[..i], pks[i..j]);
  }

  // Properties of whole runs.

  /**
   * After a successful sales run, the window holds exactly the inserted rows
   * and the rows outside the window are the ones that were there before.
   */
  lemma SalesRunReplacesWindow(t: seq<SalesRecord>, start: nat, register: seq<RegisterRow>, gstr1: seq<Gstr1Row>,
                               c: Company, w: DateRange, regReturns: seq<RegisterRow>, invReturns: seq<Gstr1Row>)
    requires ReturnsOrdered(register, gstr1, c, w, regReturns, invReturns)
    requires SalesTransform(register, gstr1, c, w, regReturns, invReturns).Success?
    ensures var out := SalesTransform(register, gstr1, c, w, regReturns, invReturns).value;
      var u := KeepOutside(t, c, w, SALES_IMPORT_TYPES) + Inserted(out.ledger, start);
      && (forall x :: x in u ==> (InWindow(x.entry, c, w, SALES_IMPORT_TYPES) <==> x in Inserted(out.ledger, start)))
      && KeepOutside(u, c, w, SALES_IMPORT_TYPES) == KeepOutside(t, c, w, SALES_IMPORT_TYPES)
  {
    var out := SalesTransform(register, gstr1, c, w, regReturns, invReturns).value;
    LedgerInsideWindow(register, gstr1, c, w, regReturns, invReturns);
    WindowReplaced(t, out.ledger, start, c, w, SALES_IMPORT_TYPES);
  }

  /**
   * Running the sales import twice on the same reports leaves the same ledger
   * entries as running it once; only the primary keys of the window differ.
   */
  lemma SalesRerunSameLedger(t: seq<SalesRecord>, s1: nat, s2: nat, register: seq<RegisterRow>, gstr1: seq<Gstr1Row>,
                             c: Company, w: DateRange, regReturns: seq<RegisterRow>, invReturns: seq<Gstr1Row>)
    requires ReturnsOrdered(register, gstr1, c, w, regReturns, invReturns)
    requires SalesTransform(register, gstr1, c, w, regReturns, invReturns).Success?
    ensures var out := SalesTransform(register, gstr1, c, w, regReturns, invReturns).value;
      var t1 := KeepOutside(t, c, w, SALES_IMPORT_TYPES) + Inserted(out.ledger, s1);
      Entries(KeepOutside(t1, c, w, SALES_IMPORT_TYPES) + Inserted(out.ledger, s2)) == Entries(t1)
  {
    var out := SalesTransform(register, gstr1, c, w, regReturns, invReturns).value;
    LedgerInsideWindow(register, gstr1, c, w, regReturns, invReturns);
    WindowRerun(t, out.ledger, s1, s2, c, w, SALES_IMPORT_TYPES);
  }

  /**
   * Whether the market-return import succeeds, and how many ledger rows it
   * writes with which invoice, company and amount, does not depend on the
   * ledger table it reads the ctin from.
   */
  lemma MarketReturnLedgerShape(c: Company, dmg: seq<DmgShtRow>, stock: StockTable, t1: seq<SalesRecord>, t2: seq<SalesRecord>)
    ensures MarketReturnTransform(c, dmg, stock, t1).Success? == MarketReturnTransform(c, dmg, stock, t2).Success?
    ensures MarketReturnTransform(c, dmg, stock, t1).Success? ==>
      var l1 := MarketReturnTransform(c, dmg, stock, t1).value.ledger;
      var l2 := MarketReturnTransform(c, dmg, stock, t2).value.ledger;
      && |l1| == |l2|
      && forall i :: 0 <= i < |l1| ==>
           l1[i].inum == l2[i].inum && l1[i].company == l2[i].company && l1[i].amt == l2[i].amt
  {
    MarketReturnFailsIff(c, dmg, stock, t1);
    MarketReturnFailsIff(c, dmg, stock, t2);
    if MarketReturnTransform(c, dmg, stock, t1).Success? {
      MarketReturnSpec(c, dmg, stock, t1);
      MarketReturnSpec(c, dmg, stock, t2);
      var kept := KeptRows(c, MarketRows(dmg, c), stock);
      var l1 := MarketReturnTransform(c, dmg, stock, t1).value.ledger;
      var l2 := MarketReturnTransform(c, dmg, stock, t2).value.ledger;
      forall i | 0 <= i < |l1|
        ensures l1[i].inum == l2[i].inum && l1[i].company == l2[i].company && l1[i].amt == l2[i].amt
      {
        var k := Dedup(Inums(kept))[i];
        AggregateSpec(c, kept, k, t1);
        AggregateSpec(c, kept, k, t2);
      }
    }
  }

  /**
   * As written, re-running the market-return import on the same report
   * inserts every ledger row again: the second run appends as many rows as
   * the first, with the same invoices, company and amounts, and every row it
   * appends repeats the (company, invoice) of a row already in the table. So
   * each invoice of the first run is either in the ledger twice or, where the
   * table refuses a repeated (company, invoice), makes the second run abort.
   */
  lemma MarketReturnRerunGrows(c: Company, dmg: seq<DmgShtRow>, stock: StockTable, t: seq<SalesRecord>, s1: nat, s2: nat)
    requires MarketReturnTransform(c, dmg, stock, t).Success?
    ensures var l1 := MarketReturnTransform(c, dmg, stock, t).value.ledger;
      var t1 := t + Inserted(l1, s1);
      && MarketReturnTransform(c, dmg, stock, t1).Success?
      && var l2 := MarketReturnTransform(c, dmg, stock, t1).value.ledger;
         && |t1 + Inserted(l2, s2)| == |t| + 2 * |l1|
         && |l2| == |l1|
         && (forall i :: 0 <= i < |l1| ==>
              l2[i].inum == l1[i].inum && l2[i].company == l1[i].company && l2[i].amt == l1[i].amt)
         && forall i :: 0 <= i < |l2| ==> HoldsInvoice(t1, l2[i])
  {
    var l1 := MarketReturnTransform(c, dmg, stock, t).value.ledger;
    var ins := Inserted(l1, s1);
    var t1 := t + ins;
    MarketReturnLedgerShape(c, dmg, stock, t, t1);
    var l2 := MarketReturnTransform(c, dmg, stock, t1).value.ledger;
    RerunRepeatsKeys(t, l1, s1, l2, s2);
  }

  /** Some row of the table is billed under the company and invoice number of `e`. */
  predicate HoldsInvoice(t: seq<SalesRecord>, e: Sales)
  {
    exists x :: x in t && x.entry.company == e.company && x.entry.inum == e.inum
  }

  /** A second batch that repeats the first batch's keys doubles the rows and finds each key already stored. */
  lemma RerunRepeatsKeys(t: seq<SalesRecord>, l1: seq<Sales>, s1: nat, l2: seq<Sales>, s2: nat)
    requires |l2| == |l1|
    requires forall i :: 0 <= i < |l1| ==> l2[i].inum == l1[i].inum && l2[i].company == l1[i].company
    ensures |t + Inserted(l1, s1) + Inserted(l2, s2)| == |t| + 2 * |l1|
    ensures forall i :: 0 <= i < |l2| ==> HoldsInvoice(t + Inserted(l1, s1), l2[i])
  {
    forall i | 0 <= i < |l2|
      ensures HoldsInvoice(t + Inserted(l1, s1), l2[i])
    {
      RepeatedKeyAlreadyStored(t, l1, s1, l2[i], i);
    }
  }

  /** A row that repeats the (company, invoice) of a freshly inserted row finds it in the table. */
  lemma RepeatedKeyAlreadyStored(t: seq<SalesRecord>, l1: seq<Sales>, s1: nat, e: Sales, i: nat)
    requires i < |l1|
    requires e.inum == l1[i].inum && e.company == l1[i].company
    ensures HoldsInvoice(t + Inserted(l1, s1), e)
  {
    var ins := Inserted(l1, s1);
    assert Entries(ins)[i] == ins[i].entry == l1[i];
    assert (t + ins)[|t| + i] == ins[i];
  }

  /** With the date filter, every ledger row of the market-return import lies inside its window. */
  lemma MarketLedgerInsideWindow(c: Company, w: DateRange, dmg: seq<DmgShtRow>, stock: StockTable, t: seq<SalesRecord>)
    requires forall x :: x in dmg ==> x.kind in MARKET_RETURN_TYPES
    requires MarketReturnTransform(c, DatedIn(dmg, w), stock, t).Success?
    ensures var l := MarketReturnTransform(c, DatedIn(dmg, w), stock, t).value.ledger;
      forall i :: 0 <= i < |l| ==> InWindow(l[i], c, w, MARKET_RETURN_TYPES)
  {
    var rows := DatedIn(dmg, w);
    var kept := KeptRows(c, MarketRows(rows, c), stock);
    var l := MarketReturnTransform(c, rows, stock, t).value.ledger;
    MarketReturnSpec(c, rows, stock, t);
    KeptRowsSpec(c, MarketRows(rows, c), stock);
    forall i | 0 <= i < |l| ensures InWindow(l[i], c, w, MARKET_RETURN_TYPES) {
      var k := Dedup(Inums(kept))[i];
      AggregateSpec(c, kept, k, t);
      var x :| x in kept && x.inum == k && l[i].kind == x.kind && l[i].date == x.date && l[i].partyId == x.partyId;
    }
  }

  /**
   * With its window, re-running the market-return import on the same report
   * leaves the same ledger entries as running it once.
   */
  lemma MarketReturnWindowedRerun(c: Company, w: DateRange, dmg: seq<DmgShtRow>, stock: StockTable,
                                  t: seq<SalesRecord>, s1: nat, s2: nat)
    requires forall x :: x in dmg ==> x.kind in MARKET_RETURN_TYPES
    requires MarketReturnTransform(c, DatedIn(dmg, w), stock, KeepOutside(t, c, w, MARKET_RETURN_TYPES)).Success?
    ensures var l1 := MarketReturnTransform(c, DatedIn(dmg, w), stock, KeepOutside(t, c, w, MARKET_RETURN_TYPES)).value.ledger;
      var t1 := KeepOutside(t, c, w, MARKET_RETURN_TYPES) + Inserted(l1, s1);
      && MarketReturnTransform(c, DatedIn(dmg, w), stock, KeepOutside(t1, c, w, MARKET_RETURN_TYPES)).Success?
      && var l2 := MarketReturnTransform(c, DatedIn(dmg, w), stock, KeepOutside(t1, c, w, MARKET_RETURN_TYPES)).value.ledger;
         Entries(KeepOutside(t1, c, w, MARKET_RETURN_TYPES) + Inserted(l2, s2)) == Entries(t1)
  {
    var t0 := KeepOutside(t, c, w, MARKET_RETURN_TYPES);
    var l1 := MarketReturnTransform(c, DatedIn(dmg, w), stock, t0).value.ledger;
    MarketLedgerInsideWindow(c, w, dmg, stock, t0);
    WindowReplaced(t, l1, s1, c, w, MARKET_RETURN_TYPES);
    WindowRerun(t, l1, s1, s2, c, w, MARKET_RETURN_TYPES);
  }

  /** Re-running a master import that succeeded leaves the table as the first run left it. */
  lemma MasterRerunIdempotent<V>(t: map<Key, V>, rows: seq<(Key, V)>)
    requires BulkUpsert(t, Batches(rows, UPSERT_BATCH)).Success?
    ensures BulkUpsert(BulkUpsert(t, Batches(rows, UPSERT_BATCH)).value, Batches(rows, UPSERT_BATCH))
      == BulkUpsert(t, Batches(rows, UPSERT_BATCH))
    ensures BulkUpsert(t, Batches(rows, UPSERT_BATCH)).value == UpsertRows(t, rows)
  {
    BulkUpsertIdempotent(t, Batches(rows, UPSERT_BATCH));
    BulkUpsertSpec(t, Batches(rows, UPSERT_BATCH));
    BatchesFlatten(rows, UPSERT_BATCH);
  }
}
