/**
 * The master-data imports: stock rates and parties are merged into keyed
 * tables with `bulk_create(update_conflicts=True)`, an insert that updates the
 * existing row when the natural key is already present. Each batch is one
 * INSERT ... ON CONFLICT DO UPDATE statement, which refuses to touch the same
 * row twice.
 */
module Master {
  import opened Wrappers
  import opened Rows
  import opened Seqs

  /** `batch_size` of both master imports. */
  const UPSERT_BATCH: nat := 2000

  /** A natural key: the company and the stock name or party code. */
  type Key = (Company, string)

  /** Two rows of the batch name the same key. */
  predicate HasDupKey<V>(rows: seq<(Key, V)>)
  {
    exists i, j :: 0 <= i < j < |rows| && rows[i].0 == rows[j].0
  }

  /** The keys the rows name. */
  function KeysOf<V>(rows: seq<(Key, V)>): (r: set<Key>)
    ensures forall k :: k in r <==> exists i :: 0 <= i < |rows| && rows[i].0 == k
  {
    set i | 0 <= i < |rows| :: rows[i].0
  }

  /** Row by row, insert the key or overwrite its value: no key is lost, every row's key is present, the last row wins. */
  function UpsertRows<V>(t: map<Key, V>, rows: seq<(Key, V)>): (r: map<Key, V>)
    ensures t.Keys <= r.Keys
    ensures forall i :: 0 <= i < |rows| ==> rows[i].0 in r
    ensures rows != [] ==> r[rows[|rows| - 1].0] == rows[|rows| - 1].1
  {
    if rows == [] then t
    else
      var last := rows[|rows| - 1];
      assert forall i :: 0 <= i < |rows| - 1 ==> rows[..|rows| - 1][i] == rows[i];
      UpsertRows(t, rows[..|rows| - 1])[last.0 := last.1]
  }

  /** The value of the last row that names key `k`. */
  function LastValue<V>(rows: seq<(Key, V)>, k: Key): V
    requires k in KeysOf(rows)
  {
    var last := rows[|rows| - 1];
    if last.0 == k then last.1 else LastValue(rows[..|rows| - 1], k)
  }

  /** `bulk_create(..., update_conflicts=True)`: batch by batch, stopping at the first batch that names a key twice. */
  function BulkUpsert<V>(t: map<Key, V>, batches: seq<seq<(Key, V)>>): (r: Result<map<Key, V>, Error>)
    ensures r.Success? ==> t.Keys <= r.value.Keys
    ensures r.Success? ==> forall i :: 0 <= i < |batches| ==> !HasDupKey(batches[i])
    decreases |batches|
  {
    if batches == [] then Success(t)
    else
      var b := batches[0];
      if HasDupKey(b) then Failure(ConflictTwiceInBatch)
      else BulkUpsert(UpsertRows(t, b), batches[1..])
  }

  /**
   * The merged table: the old keys and the named keys; a named key holds the
   * value of the last row naming it, every other key keeps its value.
   */
  lemma {:induction false} UpsertRowsSpec<V>(t: map<Key, V>, rows: seq<(Key, V)>)
    ensures var r := UpsertRows(t, rows);
      && r.Keys == t.Keys + KeysOf(rows)
      && (forall k :: k in KeysOf(rows) ==> r[k] == LastValue(rows, k))
      && (forall k :: k in t && k !in KeysOf(rows) ==> r[k] == t[k])
  {
    if rows != [] {
      var p := rows[..|rows| - 1];
      UpsertRowsSpec(t, p);
      KeysOfSnoc(rows);
    }
  }

  lemma KeysOfSnoc<V>(rows: seq<(Key, V)>)
    requires rows != []
    ensures KeysOf(rows) == KeysOf(rows[..|rows| - 1]) + {rows[|rows| - 1].0}
  {
    var p := rows[..|rows| - 1];
    forall k | k in KeysOf(rows) ensures k in KeysOf(p) + {rows[|rows| - 1].0} {
      var i :| 0 <= i < |rows| && rows[i].0 == k;
      if i < |p| {
        assert p[i] == rows[i];
      }
    }
    forall k | k in KeysOf(p) ensures k in KeysOf(rows) {
      var i :| 0 <= i < |p| && p[i].0 == k;
      assert rows[i] == p[i];
    }
  }

  lemma {:induction false} UpsertRowsAppend<V>(t: map<Key, V>, a: seq<(Key, V)>, b: seq<(Key, V)>)
    ensures UpsertRows(t, a + b) == UpsertRows(UpsertRows(t, a), b)
  {
    if b == [] {
      assert a + b == a;
    } else {
      var ab := a + b;
      assert ab[..|ab| - 1] == a + b[..|b| - 1];
      UpsertRowsAppend(t, a, b[..|b| - 1]);
    }
  }

  /** Some batch names a key twice. */
  predicate SomeBatchConflicts<V>(batches: seq<seq<(Key, V)>>)
  {
    exists i :: 0 <= i < |batches| && HasDupKey(batches[i])
  }

  /**
   * The batched upsert fails iff some batch names a key twice, and otherwise
   * is the row-by-row merge of all rows.
   */
  lemma {:induction false} BulkUpsertSpec<V>(t: map<Key, V>, batches: seq<seq<(Key, V)>>)
    ensures BulkUpsert(t, batches).Failure? <==> SomeBatchConflicts(batches)
    ensures BulkUpsert(t, batches).Success? ==> BulkUpsert(t, batches).value == UpsertRows(t, Flatten(batches))
    decreases |batches|
  {
    if batches != [] && !HasDupKey(batches[0]) {
      var b := batches[0];
      BulkUpsertSpec(UpsertRows(t, b), batches[1..]);
      UpsertRowsAppend(t, b, Flatten(batches[1..]));
      if SomeBatchConflicts(batches) {
        var i :| 0 <= i < |batches| && HasDupKey(batches[i]);
        assert batches[1..][i - 1] == batches[i];
      }
      if SomeBatchConflicts(batches[1..]) {
        var i :| 0 <= i < |batches[1..]| && HasDupKey(batches[1..][i]);
        assert batches[i + 1] == batches[1..][i];
      }
    }
  }

  /** The only way a batched upsert fails is a batch that names a key twice. */
  lemma {:induction false} BulkUpsertErrors<V>(t: map<Key, V>, batches: seq<seq<(Key, V)>>)
    ensures BulkUpsert(t, batches).Failure? ==> BulkUpsert(t, batches).error == ConflictTwiceInBatch
    decreases |batches|
  {
    if batches != [] && !HasDupKey(batches[0]) {
      BulkUpsertErrors(UpsertRows(t, batches[0]), batches[1..]);
    }
  }

  /** Merging the same rows a second time changes nothing. */
  lemma UpsertRowsIdempotent<V>(t: map<Key, V>, rows: seq<(Key, V)>)
    ensures UpsertRows(UpsertRows(t, rows), rows) == UpsertRows(t, rows)
  {
    var r := UpsertRows(t, rows);
    UpsertRowsSpec(t, rows);
    UpsertRowsSpec(r, rows);
  }

  /** Re-running a batched upsert that succeeded leaves the table as it is. */
  lemma BulkUpsertIdempotent<V>(t: map<Key, V>, batches: seq<seq<(Key, V)>>)
    requires BulkUpsert(t, batches).Success?
    ensures BulkUpsert(BulkUpsert(t, batches).value, batches) == BulkUpsert(t, batches)
  {
    var r := BulkUpsert(t, batches).value;
    BulkUpsertSpec(t, batches);
    BulkUpsertSpec(r, batches);
    UpsertRowsIdempotent(t, Flatten(batches));
  }

  /**
   * The statements `bulk_create` issues, one per batch; the first batch that
   * names a key twice aborts the run.
   */
  method MergeBatches<V>(t: map<Key, V>, batches: seq<seq<(Key, V)>>) returns (res: Result<map<Key, V>, Error>)
    ensures res == BulkUpsert(t, batches)
  {
    var table := t;
    var i := 0;
    while i < |batches|
      invariant 0 <= i <= |batches|
      invariant BulkUpsert(t, batches) == BulkUpsert(table, batches[i..])
    {
      var b := batches[i];
      assert batches[i..][1..] == batches[i + 1..];
      if HasDupKey(b) {
        return Failure(ConflictTwiceInBatch);
      }
      var j := 0;
      var merged := table;
      while j < |b|
        invariant 0 <= j <= |b|
        invariant merged == UpsertRows(table, b[..j])
      {
        assert b[..j + 1][..j] == b[..j];
        merged := merged[b[j].0 := b[j].1];
        j := j + 1;
      }
      assert b[..j] == b;
      table := merged;
      i := i + 1;
    }
    return Success(table);
  }

  /** Two rows with the same key fail together in one batch, and succeed, the later one winning, in two. */
  lemma DuplicateKeyNeedsTwoBatches<V>(t: map<Key, V>, k: Key, v1: V, v2: V)
    ensures BulkUpsert(t, Batches([(k, v1), (k, v2)], UPSERT_BATCH)) == Failure(ConflictTwiceInBatch)
    ensures BulkUpsert(t, Batches([(k, v1), (k, v2)], 1)) == Success(t[k := v2])
  {
    var rows := [(k, v1), (k, v2)];
    assert HasDupKey(rows) by { assert rows[0].0 == rows[1].0; }
    var b1: seq<(Key, V)> := [(k, v1)];
    var b2: seq<(Key, V)> := [(k, v2)];
    assert Batches(rows, 1) == [b1, b2] by {
      assert rows[..1] == b1 && rows[1..] == b2;
      assert Batches(b2, 1) == [b2];
    }
    assert !HasDupKey(b1) && !HasDupKey(b2);
    assert UpsertRows(t, b1) == t[k := v1] by { assert b1[..0] == []; }
    assert UpsertRows(t[k := v1], b2) == t[k := v2] by { assert b2[..0] == []; }
    assert [b1, b2][1..] == [b2];
    assert BulkUpsert(t, [b1, b2]) == BulkUpsert(t[k := v1], [b2]);
    assert BulkUpsert(t[k := v1], [b2]) == BulkUpsert(t[k := v2], [b2][1..]);
  }

  // The two master imports.

  /**
   * The company's stock report rows, in report order, as stock-table rows
   * keyed by (company, name) holding the row's HSN code and rate.
   */
  function StockRowsFor(report: seq<StockReportRow>, c: Company): (r: seq<(Key, StockInfo)>)
    ensures forall i :: 0 <= i < |r| ==> r[i].0.0 == c
    ensures forall y :: y in r ==> exists x :: x in report && x.company == c && y == ((c, x.stockId), StockInfo(x.hsn, x.rt))
    ensures forall x :: x in report && x.company == c ==> ((c, x.stockId), StockInfo(x.hsn, x.rt)) in r
  {
    if report == [] then []
    else
      var x := report[|report| - 1];
      assert forall z :: z in report <==> z in report[..|report| - 1] || z == x by {
        assert report == report[..|report| - 1] + [x];
      }
      StockRowsFor(report[..|report| - 1], c) + (if x.company == c then [((c, x.stockId), StockInfo(x.hsn, x.rt))] else [])
  }

  /**
   * The company's party report rows, in report order, as party-table rows
   * keyed by (company, code) holding the row's name, address, master code,
   * phone and tax id.
   */
  function PartyRowsFor(report: seq<PartyReportRow>, c: Company): (r: seq<(Key, PartyInfo)>)
    ensures forall i :: 0 <= i < |r| ==> r[i].0.0 == c
    ensures forall y :: y in r ==>
      exists x :: x in report && x.company == c && y == ((c, x.code), PartyInfo(x.name, x.addr, x.masterCode, x.phone, x.ctin))
    ensures forall x :: x in report && x.company == c ==>
      ((c, x.code), PartyInfo(x.name, x.addr, x.masterCode, x.phone, x.ctin)) in r
  {
    if report == [] then []
    else
      var x := report[|report| - 1];
      assert forall z :: z in report <==> z in report[..|report| - 1] || z == x by {
        assert report == report[..|report| - 1] + [x];
      }
      PartyRowsFor(report[..|report| - 1], c)
        + (if x.company == c then [((c, x.code), PartyInfo(x.name, x.addr, x.masterCode, x.phone, x.ctin))] else [])
  }

  /** The rows keep the report's order: the rows of a concatenated report are the rows of its parts, in turn. */
  lemma {:induction false} StockRowsForAppend(a: seq<StockReportRow>, b: seq<StockReportRow>, c: Company)
    ensures StockRowsFor(a + b, c) == StockRowsFor(a, c) + StockRowsFor(b, c)
  {
    if b == [] {
      assert a + b == a;
    } else {
      var ab := a + b;
      assert ab[..|ab| - 1] == a + b[..|b| - 1];
      StockRowsForAppend(a, b[..|b| - 1], c);
    }
  }

  /** The rows keep the report's order: the rows of a concatenated report are the rows of its parts, in turn. */
  lemma {:induction false} PartyRowsForAppend(a: seq<PartyReportRow>, b: seq<PartyReportRow>, c: Company)
    ensures PartyRowsFor(a + b, c) == PartyRowsFor(a, c) + PartyRowsFor(b, c)
  {
    if b == [] {
      assert a + b == a;
    } else {
      var ab := a + b;
      assert ab[..|ab| - 1] == a + b[..|b| - 1];
      PartyRowsForAppend(a, b[..|b| - 1], c);
    }
  }

  /** Every stock report row of the company is merged under its key, and the merge names no other key. */
  lemma StockRowsForSpec(report: seq<StockReportRow>, c: Company)
    ensures forall k :: k in KeysOf(StockRowsFor(report, c)) <==>
      exists x :: x in report && x.company == c && k == (c, x.stockId)
  {
    var r := StockRowsFor(report, c);
    forall x | x in report && x.company == c ensures (c, x.stockId) in KeysOf(r) {
      var i :| 0 <= i < |r| && r[i] == ((c, x.stockId), StockInfo(x.hsn, x.rt));
    }
    forall k | k in KeysOf(r) ensures exists x :: x in report && x.company == c && k == (c, x.stockId) {
      var i :| 0 <= i < |r| && r[i].0 == k;
      assert r[i] in r;
    }
  }

  /** Every party report row of the company is merged under its key, and the merge names no other key. */
  lemma PartyRowsForSpec(report: seq<PartyReportRow>, c: Company)
    ensures forall k :: k in KeysOf(PartyRowsFor(report, c)) <==>
      exists x :: x in report && x.company == c && k == (c, x.code)
  {
    var r := PartyRowsFor(report, c);
    forall x | x in report && x.company == c ensures (c, x.code) in KeysOf(r) {
      var i :| 0 <= i < |r| && r[i] == ((c, x.code), PartyInfo(x.name, x.addr, x.masterCode, x.phone, x.ctin));
    }
    forall k | k in KeysOf(r) ensures exists x :: x in report && x.company == c && k == (c, x.code) {
      var i :| 0 <= i < |r| && r[i].0 == k;
      assert r[i] in r;
    }
  }

  /** Keys of other companies, and keys the report does not name, keep their rows; nothing is deleted. */
  lemma UpsertFrame<V>(t: map<Key, V>, rows: seq<(Key, V)>, c: Company)
    requires forall i :: 0 <= i < |rows| ==> rows[i].0.0 == c
    ensures var r := UpsertRows(t, rows);
      && t.Keys <= r.Keys
      && forall k :: k in t && (k.0 != c || k !in KeysOf(rows)) ==> r[k] == t[k]
  {
    UpsertRowsSpec(t, rows);
  }

  /** `filter(company=c).delete()` on a keyed table. */
  function DropCompany<V>(t: map<Key, V>, c: Company): (r: map<Key, V>)
    ensures forall k :: k in r <==> k in t && k.0 != c
    ensures forall k :: k in r ==> r[k] == t[k]
  {
    map k | k in t && k.0 != c :: t[k]
  }

  /**
   * Deleting the company's rows and then merging rows of that company leaves
   * the company holding exactly the merged keys, each with the value of the
   * last row naming it; other companies keep their rows.
   */
  lemma DropThenUpsert<V>(t: map<Key, V>, rows: seq<(Key, V)>, c: Company)
    requires forall i :: 0 <= i < |rows| ==> rows[i].0.0 == c
    ensures var r := UpsertRows(DropCompany(t, c), rows);
      && (forall k: Key :: k.0 == c ==> (k in r <==> k in KeysOf(rows)))
      && (forall k :: k in KeysOf(rows) ==> r[k] == LastValue(rows, k))
      && (forall k: Key :: k.0 != c ==> (k in r <==> k in t))
      && (forall k :: k in r && k.0 != c ==> r[k] == t[k])
  {
    var d := DropCompany(t, c);
    UpsertRowsSpec(d, rows);
    forall k | k in KeysOf(rows) ensures k.0 == c {
      var i :| 0 <= i < |rows| && rows[i].0 == k;
    }
  }
}
