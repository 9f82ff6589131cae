# ERP import core, modelled in Dafny

This project models the importers in `app/erp_import.py`. They turn
downloaded report tables into the application's own tables:

- the `Sales` ledger, `Discount` and `Inventory`;
- the `Stock` and `Party` masters.

The model covers:

- `batch_delete` and the two `delete_before_insert` window deletes;
- the sales importer (`SalesImport.run_atomic`). It matches credit notes to
  sales-return register rows first-in, first-out. It folds claim-service
  lines into one register row per invoice number. Then it writes three
  streams: ledger, discounts and inventory;
- the market-return importer (`MarketReturnImport.run_atomic`). It prices
  each damage/shortage line tax-exclusive and sums the lines per invoice
  into a ledger row;
- the two master upserts (`StockImport`, `PartyImport`);
- the `delete_all` branch of `SimpleImport.basic_run`.

Modules:

- `Rows`: the row types of the report and application tables.
- `Window`: the date/type window and deletes by primary key.
- `Matching`: the credit-note queues and their FIFO resolution.
- `Claims`: the claim-service aggregation.
- `Emission`: the ledger, discount and inventory streams.
- `SalesImport`: the whole sales transformation.
- `MarketReturn`: the market-return fold and its closed-form reference.
- `Master`: the upserts.
- `Store`: the database itself. The class `Store.Database` holds the tables
  as fields, and its methods are the importers' entry points. Each
  `run_atomic` is one transaction: it returns a `Result`, and on failure
  every table is left exactly as it was.

Each importer's loop is a method. Each method is proved equal to a
recursive reference function (`MatchReturns`, `AggregateClaims`,
`MarketReturnRows`, `MergeBatches`, `BatchDelete`). The promised
properties are then proved about those functions as lemmas.

Model choices:

- Money is `real`, because `Decimal` is exact.
- Dates are integers.
- Primary keys are handed out consecutively by `bulk_create`.
- A query ordered with `order_by` is an input, constrained to be a sorted
  arrangement of the filtered rows. SQL leaves the order of ties free, and
  so does the model.

The code differs from what a replace-window importer would do in two places:

- A sales-return register row with no credit note left for its
  (date, original invoice) key makes `inums.pop(0)` raise. The whole
  transaction then rolls back, instead of leaving that row unresolved.
- The market-return `run_atomic` neither calls its `delete_before_insert`
  nor filters by date (see Findings).

## Model

| member | source | states |
|---|---|---|
| Seqs.Batches | app/erp_import.py:30-31 | every chunk `range(0, len(pks), batch_size)` cuts is non-empty and holds at most `batch_size` keys |
| Seqs.BatchesFlatten | app/erp_import.py:30-31 | the chunks, concatenated in order, give back the whole key list: every key is deleted once |
| Window.KeepOutside | app/erp_import.py:115-120 | a row survives the window delete iff it is not (same company, date within fromd..tod inclusive, type in the list) |
| Window.WindowIds | app/erp_import.py:28-29 | the collected pk list holds exactly the keys of the rows in the window |
| Window.RemoveIds | app/erp_import.py:32 | `filter(pk__in=…).delete()` keeps a row iff its key is not among those given |
| Window.RemoveIdsTwice | app/erp_import.py:30-32 | deleting one chunk and then another is the same as deleting their union at once |
| Window.RemoveIdsIsKeepOutside | app/erp_import.py:28-32 | deleting a key set that marks exactly the window rows leaves what the window filter keeps |
| Window.RemoveWindowIds | app/erp_import.py:28-32 | with unique keys, deleting every collected pk equals deleting the window |
| Window.RemoveIdsUnique | app/erp_import.py:32 | a delete keeps primary keys unique |
| Window.KeepOutsideUnique | app/erp_import.py:115-120 | the window delete keeps primary keys unique |
| Window.KeepOutsideAppend | app/erp_import.py:115-120 | the window delete acts row by row, so it distributes over concatenation |
| Window.KeepOutsideIdempotent | app/erp_import.py:115-120 | deleting the window twice is the same as deleting it once |
| Window.KeepOutsideOfWindowRows | app/erp_import.py:115-120 | rows that all lie in the window are deleted entirely |
| Window.Inserted | app/erp_import.py:216 | `bulk_create` stores the given entries in order, one row each, under pairwise distinct fresh keys drawn from `start` up to `start + n` |
| Window.InsertedKeepsUnique | app/erp_import.py:216 | inserting at fresh keys keeps keys unique and below the next key |
| Window.WindowReplaced | app/erp_import.py:124-125 | after a delete-then-insert of in-window rows, a row is in the window iff it is one just inserted; everything outside is untouched |
| Window.WindowRerun | app/erp_import.py:122-267 | running delete-then-insert of the same rows twice leaves the same ledger entries as running it once |
| Matching.CreditNotesForSpec | app/erp_import.py:144-149 | a credit note is listed under a (date, original invoice) key iff some sales-return GSTR-1 line with that key carries it |
| Matching.CreditNoteQueues | app/erp_import.py:144-149 | no queue is empty, and every queue's key is the (date, original invoice) of some sales-return line |
| Matching.ResolveReturns | app/erp_import.py:151-162 | matching fails only with the missing-credit-note error, and on success yields one line per register return |
| Matching.QueueIsDistinctCreditNotes | app/erp_import.py:144-149 | each queue holds that key's credit notes without repeats, in first-seen order of the `inv_amt` ordering |
| Matching.CreditNoteQueueContents | app/erp_import.py:147-149 | a queue has no duplicates, and holds a note iff some line with that key carries it |
| Matching.QueueCreditNotes | app/erp_import.py:144-149 | the loop relabels each line (inum := credit note, txval negated), keeps the line order, and builds exactly the reference queues |
| Matching.CreditNoteQueuesSnoc | app/erp_import.py:147-149 | visiting one more sales-return line extends the queues by exactly that line |
| Matching.ResolveReturnsSpec | app/erp_import.py:151-162 | matching succeeds iff every return's rank among earlier same-key returns is below its queue's length. The j-th return then takes the note at its rank, with roundoff negated. Each queue loses exactly one head per return with its key |
| Matching.MatchReturns | app/erp_import.py:151-162 | the loop yields the resolved lines when the reference succeeds, and the same error when it fails |
| Matching.FailureIsKept | app/erp_import.py:161 | once a prefix of the returns has failed, the whole run fails with that same error |
| Matching.RankIncreases | app/erp_import.py:151-161 | of two returns with the same key, the later one has the higher rank (FIFO order) |
| Matching.ResolvedCreditNotesDistinct | app/erp_import.py:151-161 | two returns with the same key never receive the same credit note |
| Claims.FirstPerInumSpec | app/erp_import.py:177 | `distinct("inum")` yields lines taken from the input, with pairwise distinct invoice numbers, covering every invoice number present |
| Claims.AggregateClaims | app/erp_import.py:165-192 | the two loops equal the reference aggregation |
| Claims.SumClaimLines | app/erp_import.py:166-174 | the accumulation loop leaves, for every invoice, the summed taxable value and the summed tax of its lines (0 when it has none) |
| Claims.ClaimServiceRows | app/erp_import.py:176-192 | one row per distinct invoice, in first-seen order, with that invoice number; amount plus TDS is the invoice's summed txval plus tax |
| Claims.ClaimServiceRowsSpec | app/erp_import.py:165-192 | one claim-service row per invoice number, each invoice number once. Each row has summed txval T, tax S = Σ 2·txval·rt/100, tds = 2% of T, amt = T + S − tds, party HUL, no discounts, and date and ctin taken from one of its lines |
| Claims.ClaimServiceExample | app/erp_import.py:172-190 | lines of 100 and 200 at 5% under one invoice give a single row with tds 6 and amt 324 |
| Emission.LedgerStream | app/erp_import.py:195-216 | one ledger row per register row, all of the importing company |
| Emission.InventoryStream | app/erp_import.py:250-267 | one inventory row per GSTR-1 line, all of the importing company |
| Emission.LedgerEntry | app/erp_import.py:197-214 | the ledger row of a register row has its company, type, invoice and date; amount and TDS negated; roundoff and TCS copied |
| Emission.DiscountsOf | app/erp_import.py:231-247 | at most five discount rows per register row, each of that company, billed to the row's invoice and non-zero |
| Emission.ExcludeAllZero | app/erp_import.py:220-229 | a row is kept iff it is in the input and not all five discount columns are zero; never more rows than the input |
| Emission.DiscountStream | app/erp_import.py:218-248 | at most five discount rows per register row, all of the company and non-zero |
| Emission.DiscountIfSpec | app/erp_import.py:239-246 | a discount kind yields one row of amount −value when its value is non-zero, and nothing otherwise |
| Emission.DiscountsOfSpec | app/erp_import.py:231-247 | every discount row of a register row has that company and bill, amount −value and is non-zero. A kind appears iff its value is non-zero, so the row count is the number of non-zero kinds |
| Emission.ZeroSuppression | app/erp_import.py:219-247 | a register row yields no discounts iff all five values are zero |
| Emission.ExcludeAllZeroHarmless | app/erp_import.py:220-229 | the `.exclude(all zero)` filter changes nothing in the discount stream |
| Emission.DiscountStreamMembers | app/erp_import.py:231-247 | a discount is emitted iff it belongs to some register row's discounts |
| Emission.DiscountsOfSum | app/erp_import.py:207-248 | a register row's discount rows sum to minus its five discount columns, which is its ledger row's `discount` |
| Emission.DiscountStreamReconciles | app/erp_import.py:207-248 | over a whole stream, the discount amounts sum to the ledger's total discount |
| Emission.LedgerTotalIsNegated | app/erp_import.py:205 | the ledger's total amount is minus the register's total amount |
| SalesImport.RegisterOf | app/erp_import.py:126-134 | a register row is picked iff it belongs to the company, its date lies in the range and it has the type |
| SalesImport.SalesTransform | app/erp_import.py:124-267 | the sales run fails only with the missing-credit-note error; on success every ledger, discount and inventory row belongs to the importing company |
| SalesImport.InventoryOf | app/erp_import.py:129-135 | the same filter on GSTR-1 lines |
| SalesImport.ReturnLines | app/erp_import.py:144-146 | one relabelled line per sales-return GSTR-1 line |
| SalesImport.SalesTransformFailsIff | app/erp_import.py:124-267 | the sales run fails iff some return's rank reaches the number of distinct credit notes for its key, and then only with the missing-credit-note error |
| SalesImport.SalesOutputCounts | app/erp_import.py:194-267 | ledger rows = sales + returns + distinct claim invoices; inventory rows = sales + return + claim lines |
| SalesImport.SalesLedgerRow | app/erp_import.py:195-216 | the i-th ledger row is the i-th in-window sales row: company, type, inum, date, party and ctin copied; amt, discount total and tds negated; roundoff and tcs copied |
| SalesImport.MatchedReturnLedger | app/erp_import.py:151-216 | the j-th return's ledger row carries the credit note at its FIFO rank, matched on date and original invoice, with amt, roundoff, tds and discount negated and date, party, ctin and tcs copied |
| SalesImport.SalesLedgerStream | app/erp_import.py:194-216 | on success matching succeeds with one line per register return, and the ledger is, in order, the in-window sales rows, the matched returns and the aggregated claim-service rows, each through the ledger mapping |
| SalesImport.SalesInventoryLine | app/erp_import.py:250-267 | the i-th inventory row is the i-th in-window sales line of the company, with bill, stock, qty, rt and txval copied |
| SalesImport.ClaimInventoryLine | app/erp_import.py:250-267 | after the sales and return lines come the in-window claim-service lines, in order, with bill, stock, qty, rt and txval copied |
| SalesImport.ReturnInventoryLine | app/erp_import.py:144-146 | a return's inventory row is billed to its credit note, with txval negated |
| SalesImport.LedgerInsideWindow | app/erp_import.py:115-216 | every ledger row written lies in the window the run deleted |
| SalesImport.DiscountsMatchLedger | app/erp_import.py:195-248 | the discount rows written sum to the ledger rows' total discount |
| MarketReturn.LatestSaleSpec | app/erp_import.py:290-294 | the party's latest sale is a sale of that party in that company, and none is later. It is absent iff the party has no sale |
| MarketReturn.LatestSale | app/erp_import.py:290-294 | a found sale is a sale of that party in that company; none is found only when the ledger has no such sale |
| MarketReturn.PartyCtin | app/erp_import.py:290-294 | a ctin found is the ctin of some sale of that party in that company |
| MarketReturn.PartyCtinSpec | app/erp_import.py:290-294 | a party without sales in the company gets no ctin; a party with sales gets the ctin of one of them that no other sale of the party postdates (`order_by("-date")[:1]`) |
| MarketReturn.StockRate | app/erp_import.py:286-288 | a rate is found iff the company has the stock, and it is that stock's rate |
| MarketReturn.Round3 | app/erp_import.py:316 | the rounded value is a whole number of thousandths |
| MarketReturn.TaxExclusive | app/erp_import.py:316 | the tax-exclusive value fails iff the rate is non-zero and `100 + 2·rt` is zero; rate 0 gives 0 |
| MarketReturn.TaxExclusiveBound | app/erp_import.py:316 | otherwise the value is within half a thousandth of `amt·100/(100+2·rt)` |
| MarketReturn.BlankToNone | app/erp_import.py:309 | an empty ctin becomes null, any other value is kept, so the result is never the empty string |
| MarketReturn.MarketRows | app/erp_import.py:296-298 | a damage/shortage row is read iff it belongs to the company and has `return_from="market"` |
| MarketReturn.DatedIn | app/erp_import.py:275-279 | the date filter that the corrected run applies: a row is kept iff its date lies in the range |
| MarketReturn.Round3Bound | app/erp_import.py:316 | rounding to three decimals moves a value by at most half a thousandth |
| MarketReturn.MrFoldSpec | app/erp_import.py:308-339 | the loop's state is the reference state: invoice numbers in first-seen order, per-invoice rows, inventory lines |
| MarketReturn.MarketReturnRows | app/erp_import.py:306-342 | the loop equals the reference transformation |
| MarketReturn.MarketReturnStep | app/erp_import.py:307-339 | one loop iteration is the reference step: an unrated row is skipped, a zero divisor fails, a priced row is absorbed |
| MarketReturn.AbsorbInto | app/erp_import.py:318-339 | a priced row opens its invoice if new, adds its amount to it and appends its inventory line |
| MarketReturn.MrFoldSnoc | app/erp_import.py:306-339 | folding one more row applies one more loop step to the state reached so far |
| MarketReturn.MrFoldTransform | app/erp_import.py:306-342 | a completed loop's invoices, taken in first-seen order, with its inventory, are the import's result |
| MarketReturn.MarketReturnTransform | app/erp_import.py:284-342 | the run fails only with a division-by-zero error; on success it writes one inventory row per priced market row |
| MarketReturn.MrFoldFailsIff | app/erp_import.py:310-316 | the loop fails iff some row's `100 + 2·rt` is zero |
| MarketReturn.MarketReturnFailsIff | app/erp_import.py:284-342 | the run fails iff some market row's rate makes the divisor zero, and then only with a division-by-zero error |
| MarketReturn.FirstWithSpec | app/erp_import.py:318-327 | the row that opens an invoice is its earliest row |
| MarketReturn.AggregateSpec | app/erp_import.py:318-329 | an invoice's ledger row has that invoice number and company, the summed amount, no discount and a non-blank ctin. Its type, date and party come from one of its rows |
| MarketReturn.MarketReturnSpec | app/erp_import.py:306-342 | one ledger row per distinct invoice in first-seen order, each the aggregate of its rows; inventory is one line per priced row |
| MarketReturn.MarketReturnLedger | app/erp_import.py:318-341 | ledger invoice numbers are distinct and cover every priced row; each row's amount is the sum of its lines |
| MarketReturn.MarketInventoryRows | app/erp_import.py:310-339 | the i-th inventory row is the i-th priced row. Its txval is 0 at rate 0, and otherwise amt·100/(100+2·rt) rounded to three decimals |
| MarketReturn.UnratedReturnIgnored | app/erp_import.py:311-315 | a row whose stock has no rate changes nothing |
| MarketReturn.MarketReturnExample | app/erp_import.py:316 | an amount of 118 at rate 9 gives txval 100 |
| Master.UpsertRowsSpec | app/erp_import.py:364-370 | after the upsert the keys are the old ones plus the new ones. A written key holds its last value; an unwritten key keeps its old value |
| Master.UpsertRows | app/erp_import.py:364-370 | no key is lost, every row's key is present, and the last row's key holds the last row's value |
| Master.BulkUpsert | app/erp_import.py:364-370 | a successful batched upsert loses no key, and no batch of it names a key twice |
| Master.BulkUpsertSpec | app/erp_import.py:364-370 | a batched upsert fails iff some 2000-row batch repeats a key. Otherwise it equals upserting every row in order |
| Master.BulkUpsertErrors | app/erp_import.py:364-370 | a failure is always the key-twice-in-one-batch conflict |
| Master.MergeBatches | app/erp_import.py:364-370 | the batch loop equals the reference upsert |
| Master.UpsertRowsIdempotent | app/erp_import.py:364-370 | upserting the same rows twice is the same as once |
| Master.BulkUpsertIdempotent | app/erp_import.py:364-370 | rerunning a successful batched upsert changes nothing |
| Master.DuplicateKeyNeedsTwoBatches | app/erp_import.py:364-369 | a key repeated inside one batch fails, while in separate batches the last value wins |
| Master.StockRowsFor | app/erp_import.py:353-363 | every stock row written is keyed (company, name) and holds the HSN code and rate of some report row of the company, and every such report row's image is written |
| Master.StockRowsForSpec | app/erp_import.py:353-363 | the merge names a key iff it is (company, name) of some report row of the company |
| Master.PartyRowsFor | app/erp_import.py:381-392 | every party row written is keyed (company, code) and holds the name, address, master code, phone and ctin of some report row of the company, and every such report row's image is written |
| Master.PartyRowsForSpec | app/erp_import.py:381-392 | the merge names a key iff it is (company, code) of some report row of the company |
| Master.StockRowsForAppend | app/erp_import.py:353-363 | the stock rows keep report order: a concatenated report yields the rows of its parts, in turn |
| Master.PartyRowsForAppend | app/erp_import.py:381-392 | the party rows keep report order: a concatenated report yields the rows of its parts, in turn |
| Master.UpsertFrame | app/erp_import.py:364-370 | an upsert never deletes a row, and never touches other companies' rows or keys it does not write |
| Master.DropThenUpsert | app/erp_import.py:103-104 | after `filter(company=…).delete()`, merging rows of that company leaves it holding exactly the merged keys, each with the value of the last row naming it; other companies keep exactly their rows |
| Store.Database.BatchDelete | app/erp_import.py:28-32 | the table ends as the window delete of the old table; the chunks deleted are the pk list cut into batches of `batch_size` |
| Store.Database.SalesDeleteBeforeInsert | app/erp_import.py:115-120 | deletes exactly the company's sales, salesreturn and claimservice rows dated within the range, in batches of 100 |
| Store.Database.MarketReturnDeleteBeforeInsert | app/erp_import.py:275-280 | deletes exactly the company's damage and shortage rows dated within the range |
| Store.Database.InsertSales | app/erp_import.py:216 | appends the rows at consecutive fresh keys |
| Store.Database.SalesRunAtomic | app/erp_import.py:122-267 | the result is the sales transformation. On success the window is replaced by the new ledger, and discounts and inventory are appended. On failure every table is unchanged |
| Store.Database.MarketReturnRunAtomic | app/erp_import.py:282-342 | as written: the result is computed against the current ledger, and the rows are appended with nothing deleted. On failure nothing changes |
| Store.Database.MarketReturnRunWindowed | app/erp_import.py:275-342 | corrected: the damage/shortage window is deleted, then the in-range rows are transformed and inserted. On failure nothing changes |
| Store.Database.StockRunAtomic | app/erp_import.py:350-370 | fails iff some batch repeats a (company, name) key, leaving the table unchanged; otherwise the table is the upsert of the report rows |
| Store.Database.PartyRunAtomic | app/erp_import.py:378-399 | fails iff some batch repeats a (company, code) key, leaving the table unchanged; otherwise the table is the upsert of the report rows |
| Store.Database.SimpleBasicRun | app/erp_import.py:97-105 | with `delete_all` the model's table loses the company's rows; nothing else changes |
| Store.DeleteStep | app/erp_import.py:30-32 | deleting one more chunk extends the deleted prefix of the pk list |
| Store.SalesRunReplacesWindow | app/erp_import.py:122-267 | after a sales run the window holds exactly the rows just inserted, and rows outside it are as before |
| Store.SalesRerunSameLedger | app/erp_import.py:122-267 | rerunning the sales import over the same reports leaves the same ledger entries |
| Store.MarketReturnLedgerShape | app/erp_import.py:306-342 | success, the invoice numbers, companies and amounts do not depend on the ledger, which only supplies ctin |
| Store.MarketReturnRerunGrows | app/erp_import.py:282-342 | as written, a rerun over the same reports succeeds again and produces one more ledger row per first-run row, with the same invoice numbers, companies and amounts; each repeats a (company, invoice) already in the table |
| Store.RerunRepeatsKeys | app/erp_import.py:341 | inserting rows with the same keys as rows inserted before grows the table by their number, and each of them names a (company, invoice) already present |
| Store.MarketLedgerInsideWindow | app/erp_import.py:275-342 | in the corrected run, every row written lies in the window it deleted |
| Store.MarketReturnWindowedRerun | app/erp_import.py:275-342 | in the corrected run, rerunning leaves the same ledger entries |
| Store.MasterRerunIdempotent | app/erp_import.py:350-399 | rerunning a successful master import changes nothing, and its result is the row-by-row upsert |

## Left out

- `BaseImport.run` and `update_reports` (app/erp_import.py:42-65) download reports over the network. The report tables are inputs here.
- `DateImport.basic_run` (app/erp_import.py:76-94) creates raw-SQL temporary tables. That is not modelled.
- `GstFilingImport` (app/erp_import.py:402-443) runs imports concurrently. Concurrency is not modelled.
- Store.Database.SalesRunAtomic: the delete of the window is cascading (app/erp_import.py:79): `Discount` and `Inventory` rows billed to a deleted `Sales` row go with it. The model does not cascade; `app/models.py` is not part of this model, so `discounts` and `inventory` are only ever appended to, and a rerun adds a second copy of them.
- Store.SalesRerunSameLedger: states rerun idempotence for the ledger only. Because the cascade is not modelled, the same does not hold of the discount and inventory rows in the model.
- Store.Database.InsertSales: no uniqueness of (company, invoice number) is modelled; such a constraint would be declared in `app/models.py`, which is not part of this model. An insert that repeats a key already in the table or within the batch succeeds here, where such a constraint would make `bulk_create` raise and the run roll back. One credit note carried by sales-return lines under two different (date, original invoice) keys is such an input.
- Store.MarketReturnRerunGrows: states that the rerun's rows repeat (company, invoice) keys already present. Whether the real rerun duplicates them or aborts depends on the uniqueness constraint that is not modelled.
- The `print` diagnostic before `inums.pop(0)` is not modelled.
- MarketReturn.TaxExclusive: line 316 computes the binary float quotient `float(mr.amt) * 100 / (100 + 2 * float(rt))` and then `round(…, 3)`. The model takes the exact real quotient and rounds it to three places with halves rounded up. Float representation error, and the rounding of values at half-thousandth boundaries, are not modelled.
- Synthetic rows take zero for the columns the source leaves at their defaults: the discount columns, roundoff and TCS of a claim-service row (app/erp_import.py:181-190), and the discount, roundoff, TCS and TDS of a market-return ledger row (app/erp_import.py:318-327).
- Database columns that the importers do not write are not modelled. Neither are fields of `Stock`/`Party` beyond those in `update_fields`.
- Claims.ClaimServiceRows: which row `distinct("inum")` returns for an invoice, and in which order the distinct rows come, are not modelled; the query has no `order_by`, so the database decides both. The model takes the first row of each invoice, in first-seen order. The contracts on the chosen row say only "some row of that invoice", but the row order, and with it the order of the claim rows at the end of the ledger, is fixed to first-seen order.
- Ties in `order_by("-date")`, when choosing a party's ctin, resolve to the first such row in table order.
- `bulk_create(batch_size=1000)` chunking of plain inserts is not modelled. It is not observable in the result.
- Store.Database.BatchDelete: requires `batch_size > 0`. Python's `range` raises on 0 and deletes nothing on a negative size; every caller passes 100.
- Store.Database.SalesRunAtomic: the `order_by` of the two return queries is an input constrained to be sorted. The model does not choose the database's order of ties.
- `app/company_models.py` and `app/management/commands/check.py` are not part of this model.

## Findings

| source | as written | input that shows it | evidently intended | confidence | as-written member | corrected member |
|---|---|---|---|---|---|---|
| app/erp_import.py:284-342 | `MarketReturnImport.run_atomic` never calls its `delete_before_insert` (275-280) and reads every market row regardless of date | a successful run with at least one priced market return, run a second time over the same reports: every damage/shortage ledger row is inserted again under the same (company, invoice number): duplicated, or the run aborts where the table enforces that key's uniqueness | delete the damage/shortage window, then insert the rows dated in that window, as the sales importer does | medium, not executed | Store.MarketReturnRerunGrows | Store.MarketReturnWindowedRerun |
