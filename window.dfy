/**
 * The replace window: which ledger rows an importer deletes before it inserts
 * (`delete_before_insert`), and deletion by primary key (`batch_delete`).
 */
module Window {
  import opened Rows

  /** The row types the sales importer owns. */
  const SALES_IMPORT_TYPES: set<string> := {SALES, SALES_RETURN, CLAIM_SERVICE}
  /** The row types the market-return importer owns. */
  const MARKET_RETURN_TYPES: set<string> := {DAMAGE, SHORTAGE}

  /** The filter of `delete_before_insert`: the company's rows of these types dated inside the range. */
  predicate InWindow(e: Sales, c: Company, w: DateRange, types: set<string>)
  {
    e.company == c && InRange(w, e.date) && e.kind in types
  }

  /** No two rows of the table share a primary key. */
  predicate UniqueIds(t: seq<SalesRecord>)
  {
    forall i, j :: 0 <= i < j < |t| ==> t[i].id != t[j].id
  }

  function SetOf(s: seq<nat>): set<nat>
  {
    set x | x in s
  }

  lemma SetOfAppend(a: seq<nat>, b: seq<nat>)
    ensures SetOf(a + b) == SetOf(a) + SetOf(b)
  {
    forall x | x in SetOf(a + b) ensures x in SetOf(a) + SetOf(b) {
      assert x in a + b;
    }
  }

  /** The table once the window's rows are gone, in the original order. */
  function KeepOutside(t: seq<SalesRecord>, c: Company, w: DateRange, types: set<string>): (r: seq<SalesRecord>)
    ensures forall x :: x in r <==> x in t && !InWindow(x.entry, c, w, types)
    ensures |r| <= |t|
  {
    if t == [] then []
    else
      var rest := KeepOutside(t[1..], c, w, types);
      assert forall x :: x in t <==> x == t[0] || x in t[1..];
      if InWindow(t[0].entry, c, w, types) then rest else [t[0]] + rest
  }

  /** The primary keys of the window's rows, in table order (`values_list("pk")`). */
  function WindowIds(t: seq<SalesRecord>, c: Company, w: DateRange, types: set<string>): (ids: seq<nat>)
    ensures forall i :: i in ids <==> exists x :: x in t && x.id == i && InWindow(x.entry, c, w, types)
  {
    if t == [] then []
    else
      var rest := WindowIds(t[1..], c, w, types);
      assert forall x :: x in t <==> x == t[0] || x in t[1..];
      if InWindow(t[0].entry, c, w, types) then [t[0].id] + rest else rest
  }

  /** `filter(pk__in=ids).delete()`: the table without the rows whose key is in `ids`. */
  function RemoveIds(t: seq<SalesRecord>, ids: set<nat>): (r: seq<SalesRecord>)
    ensures forall x :: x in r <==> x in t && x.id !in ids
    ensures |r| <= |t|
  {
    if t == [] then []
    else
      var rest := RemoveIds(t[1..], ids);
      assert forall x :: x in t <==> x == t[0] || x in t[1..];
      if t[0].id in ids then rest else [t[0]] + rest
  }

  /** Deleting no key keeps the table. */
  lemma {:induction false} RemoveNoIds(t: seq<SalesRecord>)
    ensures RemoveIds(t, {}) == t
  {
    if t != [] {
      RemoveNoIds(t[1..]);
    }
  }

  /** Deleting key set `a` and then key set `b` deletes exactly the keys of `a + b`. */
  lemma {:induction false} RemoveIdsTwice(t: seq<SalesRecord>, a: set<nat>, b: set<nat>)
    ensures RemoveIds(RemoveIds(t, a), b) == RemoveIds(t, a + b)
  {
    if t != [] {
      RemoveIdsTwice(t[1..], a, b);
    }
  }

  /** When the deleted keys are exactly the keys of the window's rows, deleting by key removes the window and nothing else. */
  lemma {:induction false} RemoveIdsIsKeepOutside(t: seq<SalesRecord>, ids: set<nat>, c: Company, w: DateRange, types: set<string>)
    requires forall i :: 0 <= i < |t| ==> (t[i].id in ids <==> InWindow(t[i].entry, c, w, types))
    ensures RemoveIds(t, ids) == KeepOutside(t, c, w, types)
  {
    if t != [] {
      assert t[0].id in ids <==> InWindow(t[0].entry, c, w, types);
      RemoveIdsIsKeepOutside(t[1..], ids, c, w, types);
    }
  }

  /** With unique keys, deleting the window's keys (what `batch_delete` is given) is the window filter. */
  lemma RemoveWindowIds(t: seq<SalesRecord>, c: Company, w: DateRange, types: set<string>)
    requires UniqueIds(t)
    ensures RemoveIds(t, SetOf(WindowIds(t, c, w, types))) == KeepOutside(t, c, w, types)
  {
    var ids := SetOf(WindowIds(t, c, w, types));
    forall i | 0 <= i < |t|
      ensures t[i].id in ids <==> InWindow(t[i].entry, c, w, types)
    {
      if t[i].id in ids {
        var y :| y in t && y.id == t[i].id && InWindow(y.entry, c, w, types);
        var j :| 0 <= j < |t| && t[j] == y;
        assert t[j].id == t[i].id;
      }
    }
    RemoveIdsIsKeepOutside(t, ids, c, w, types);
  }

  /** Deleting from a table keeps its keys unique. */
  lemma {:induction false} RemoveIdsUnique(t: seq<SalesRecord>, ids: set<nat>)
    requires UniqueIds(t)
    ensures UniqueIds(RemoveIds(t, ids))
  {
    if t != [] {
      RemoveIdsUnique(t[1..], ids);
      var rest := RemoveIds(t[1..], ids);
      forall x | x in rest ensures x.id != t[0].id {
        var j :| 0 <= j < |t[1..]| && t[1..][j] == x;
        assert t[j + 1] == x;
      }
    }
  }

  /** Deleting the window keeps the table's keys unique. */
  lemma {:induction false} KeepOutsideUnique(t: seq<SalesRecord>, c: Company, w: DateRange, types: set<string>)
    requires UniqueIds(t)
    ensures UniqueIds(KeepOutside(t, c, w, types))
  {
    if t != [] {
      KeepOutsideUnique(t[1..], c, w, types);
      var rest := KeepOutside(t[1..], c, w, types);
      forall x | x in rest ensures x.id != t[0].id {
        var j :| 0 <= j < |t[1..]| && t[1..][j] == x;
        assert t[j + 1] == x;
      }
    }
  }

  /** The window filter distributes over an append. */
  lemma {:induction false} KeepOutsideAppend(t: seq<SalesRecord>, u: seq<SalesRecord>, c: Company, w: DateRange, types: set<string>)
    ensures KeepOutside(t + u, c, w, types) == KeepOutside(t, c, w, types) + KeepOutside(u, c, w, types)
  {
    if t != [] {
      assert (t + u)[1..] == t[1..] + u;
      KeepOutsideAppend(t[1..], u, c, w, types);
    } else {
      assert t + u == u;
    }
  }

  /** Deleting the window twice deletes nothing more. */
  lemma {:induction false} KeepOutsideIdempotent(t: seq<SalesRecord>, c: Company, w: DateRange, types: set<string>)
    ensures KeepOutside(KeepOutside(t, c, w, types), c, w, types) == KeepOutside(t, c, w, types)
  {
    if t != [] {
      KeepOutsideIdempotent(t[1..], c, w, types);
    }
  }

  /** Rows that all lie inside the window are all deleted. */
  lemma {:induction false} KeepOutsideOfWindowRows(u: seq<SalesRecord>, c: Company, w: DateRange, types: set<string>)
    requires forall i :: 0 <= i < |u| ==> InWindow(u[i].entry, c, w, types)
    ensures KeepOutside(u, c, w, types) == []
  {
    if u != [] {
      KeepOutsideOfWindowRows(u[1..], c, w, types);
    }
  }

  /**
   * `bulk_create`: the new rows carry the given entries in order, under
   * distinct fresh keys drawn from `start` up to `start + |es|`.
   */
  function Inserted(es: seq<Sales>, start: nat): (r: seq<SalesRecord>)
    ensures |r| == |es|
    ensures Entries(r) == es
    ensures UniqueIds(r)
    ensures forall x :: x in r ==> start <= x.id < start + |es|
  {
    seq(|es|, i requires 0 <= i < |es| => SalesRecord(start + i, es[i]))
  }

  /** Inserting rows whose keys are all above the table's keeps the keys unique. */
  lemma InsertedKeepsUnique(t: seq<SalesRecord>, es: seq<Sales>, start: nat)
    requires UniqueIds(t) && forall x :: x in t ==> x.id < start
    ensures UniqueIds(t + Inserted(es, start))
    ensures forall x :: x in t + Inserted(es, start) ==> x.id < start + |es|
  {
    var u := t + Inserted(es, start);
    forall i, j | 0 <= i < j < |u| ensures u[i].id != u[j].id {
      if j < |t| {
        assert u[i] == t[i] && u[j] == t[j];
      } else if i < |t| {
        assert u[i] in t;
      }
    }
  }

  /** The ledger entries of a table, without their keys. */
  function Entries(t: seq<SalesRecord>): (r: seq<Sales>)
    ensures |r| == |t|
  {
    seq(|t|, i requires 0 <= i < |t| => t[i].entry)
  }

  /**
   * After deleting a window and inserting rows that all lie inside it, the
   * window's rows are exactly the inserted ones and the rows outside it are
   * the old rows outside it.
   */
  lemma WindowReplaced(t: seq<SalesRecord>, es: seq<Sales>, start: nat, c: Company, w: DateRange, types: set<string>)
    requires forall i :: 0 <= i < |es| ==> InWindow(es[i], c, w, types)
    ensures var u := KeepOutside(t, c, w, types) + Inserted(es, start);
      && (forall x :: x in u ==> (InWindow(x.entry, c, w, types) <==> x in Inserted(es, start)))
      && KeepOutside(u, c, w, types) == KeepOutside(t, c, w, types)
  {
    var ins := Inserted(es, start);
    KeepOutsideAppend(KeepOutside(t, c, w, types), ins, c, w, types);
    KeepOutsideIdempotent(t, c, w, types);
    KeepOutsideOfWindowRows(ins, c, w, types);
    assert KeepOutside(t, c, w, types) + [] == KeepOutside(t, c, w, types);
  }

  /**
   * Re-running a replace-window import whose output does not depend on the
   * deleted rows reproduces the same ledger entries; only the fresh keys differ.
   */
  lemma WindowRerun(t: seq<SalesRecord>, es: seq<Sales>, s1: nat, s2: nat, c: Company, w: DateRange, types: set<string>)
    requires forall i :: 0 <= i < |es| ==> InWindow(es[i], c, w, types)
    ensures var t1 := KeepOutside(t, c, w, types) + Inserted(es, s1);
      Entries(KeepOutside(t1, c, w, types) + Inserted(es, s2)) == Entries(t1)
  {
    WindowReplaced(t, es, s1, c, w, types);
  }
}
