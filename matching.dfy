/**
 * Matching sales returns of the register against credit notes of the
 * inventory report. Inventory returns, visited in ascending `inv_amt` order,
 * queue their credit-note numbers under (date, original invoice number);
 * register returns, visited in ascending `amt` order, each take the oldest
 * credit note left in the queue under (date, invoice number).
 */
module Matching {
  import opened Wrappers
  import opened Rows
  import opened Seqs

  type QueueKey = (Date, string)
  type Queues = map<QueueKey, seq<string>>

  /** A `defaultdict(list)` lookup: an absent key reads as an empty queue. */
  function Queue(q: Queues, k: QueueKey): seq<string>
  {
    if k in q then q[k] else []
  }

  /** The queue an inventory return goes to. */
  function InvKey(g: Gstr1Row): QueueKey
  {
    (g.date, g.originalInvoiceNo)
  }

  /** The queue a register return takes its credit note from. */
  function RegKey(r: RegisterRow): QueueKey
  {
    (r.date, r.inum)
  }

  /** An inventory return as it is inserted: billed under its credit note, taxable value negated. */
  function AsReturnLine(g: Gstr1Row): Gstr1Row
  {
    g.(inum := g.creditNoteNo, txval := -g.txval)
  }

  /** One visit of an inventory return: its credit note joins its queue unless already there. */
  function Enqueue(q: Queues, g: Gstr1Row): Queues
  {
    var k := InvKey(g);
    var cur := Queue(q, k);
    if g.creditNoteNo in cur then q[k := cur] else q[k := cur + [g.creditNoteNo]]
  }

  /** The queues after visiting the inventory returns in order: only keys of visited returns, none empty. */
  function CreditNoteQueues(rows: seq<Gstr1Row>): (q: Queues)
    ensures forall k :: k in q ==> q[k] != []
    ensures forall k :: k in q ==> exists g :: g in rows && InvKey(g) == k
  {
    if rows == [] then map[]
    else
      assert forall g :: g in rows <==> g in rows[..|rows| - 1] || g == rows[|rows| - 1] by {
        assert rows == rows[..|rows| - 1] + [rows[|rows| - 1]];
      }
      Enqueue(CreditNoteQueues(rows[..|rows| - 1]), rows[|rows| - 1])
  }

  /** Reference definition: the credit notes of the returns filed under key `k`, in visiting order. */
  function CreditNotesFor(rows: seq<Gstr1Row>, k: QueueKey): seq<string>
  {
    if rows == [] then []
    else
      var last := rows[|rows| - 1];
      CreditNotesFor(rows[..|rows| - 1], k) + (if InvKey(last) == k then [last.creditNoteNo] else [])
  }

  /** Each queue holds the distinct credit notes filed under its key, oldest first. */
  lemma {:induction false} QueueIsDistinctCreditNotes(rows: seq<Gstr1Row>, k: QueueKey)
    ensures Queue(CreditNoteQueues(rows), k) == Dedup(CreditNotesFor(rows, k))
  {
    if rows != [] {
      var p := rows[..|rows| - 1];
      var g := rows[|rows| - 1];
      var s := CreditNotesFor(p, k);
      QueueIsDistinctCreditNotes(p, k);
      if InvKey(g) == k {
        assert (s + [g.creditNoteNo])[..|s|] == s;
      } else {
        assert s + [] == s;
      }
    }
  }

  /** No queue holds a credit note twice, and a credit note is in a queue iff some return with that key carries it. */
  lemma CreditNoteQueueContents(rows: seq<Gstr1Row>, k: QueueKey)
    ensures NoDup(Queue(CreditNoteQueues(rows), k))
    ensures forall x :: x in Queue(CreditNoteQueues(rows), k) <==> x in CreditNotesFor(rows, k)
  {
    QueueIsDistinctCreditNotes(rows, k);
    DedupSpec(CreditNotesFor(rows, k));
  }

  /** A credit note filed under `k` belongs to a return row with key `k`, and every such row's note is filed. */
  lemma {:induction false} CreditNotesForSpec(rows: seq<Gstr1Row>, k: QueueKey, x: string)
    ensures x in CreditNotesFor(rows, k) <==> exists i :: 0 <= i < |rows| && InvKey(rows[i]) == k && rows[i].creditNoteNo == x
  {
    if rows != [] {
      var p := rows[..|rows| - 1];
      CreditNotesForSpec(p, k, x);
      if x in CreditNotesFor(rows, k) && x !in CreditNotesFor(p, k) {
        assert InvKey(rows[|rows| - 1]) == k && rows[|rows| - 1].creditNoteNo == x;
      }
      if exists i :: 0 <= i < |rows| && InvKey(rows[i]) == k && rows[i].creditNoteNo == x {
        var i :| 0 <= i < |rows| && InvKey(rows[i]) == k && rows[i].creditNoteNo == x;
        if i < |p| {
          assert p[i] == rows[i];
        }
      }
    }
  }

  /**
   * The loop over the inventory returns (in ascending `inv_amt` order): relabels
   * each row in place and files its credit note.
   */
  method QueueCreditNotes(invReturns: seq<Gstr1Row>) returns (lines: seq<Gstr1Row>, queues: Queues)
    ensures |lines| == |invReturns|
    ensures forall i :: 0 <= i < |lines| ==> lines[i] == AsReturnLine(invReturns[i])
    ensures queues == CreditNoteQueues(invReturns)
  {
    lines := invReturns;
    queues := map[];
    var i := 0;
    while i < |lines|
      invariant 0 <= i <= |lines| == |invReturns|
      invariant forall j :: 0 <= j < i ==> lines[j] == AsReturnLine(invReturns[j])
      invariant forall j :: i <= j < |lines| ==> lines[j] == invReturns[j]
      invariant queues == CreditNoteQueues(invReturns[..i])
    {
      var obj := lines[i];
      obj := obj.(inum := obj.creditNoteNo, txval := -obj.txval);
      lines := lines[i := obj];
      var key := (obj.date, obj.originalInvoiceNo);
      var inums := Queue(queues, key);
      if obj.inum !in inums {
        inums := inums + [obj.creditNoteNo];
      }
      ghost var before := queues;
      queues := queues[key := inums];
      assert queues == Enqueue(before, invReturns[i]);
      CreditNoteQueuesSnoc(invReturns, i);
      i := i + 1;
    }
    assert invReturns[..i] == invReturns;
  }

  lemma CreditNoteQueuesSnoc(rows: seq<Gstr1Row>, i: nat)
    requires i < |rows|
    ensures CreditNoteQueues(rows[..i + 1]) == Enqueue(CreditNoteQueues(rows[..i]), rows[i])
  {
    assert rows[..i + 1][..i] == rows[..i];
  }

  /** A register return once matched: billed under credit note `cn`, roundoff negated. */
  function ResolveReturn(r: RegisterRow, cn: string): RegisterRow
  {
    r.(roundoff := -r.roundoff, inum := cn)
  }

  datatype Resolution = Resolution(lines: seq<RegisterRow>, queues: Queues)

  /**
   * The loop over the register returns (in ascending `amt` order): each takes
   * the head of its queue; an empty queue makes `pop(0)` raise, which aborts the run.
   */
  function ResolveReturns(rows: seq<RegisterRow>, q: Queues): (res: Result<Resolution, Error>)
    ensures res.Failure? ==> res.error.NoCreditNote?
    ensures res.Success? ==> |res.value.lines| == |rows|
  {
    if rows == [] then Success(Resolution([], q))
    else
      match ResolveReturns(rows[..|rows| - 1], q)
      case Failure(e) => Failure(e)
      case Success(st) =>
        var r := rows[|rows| - 1];
        var k := RegKey(r);
        var cur := Queue(st.queues, k);
        if cur == [] then Failure(NoCreditNote(r.date, r.inum))
        else Success(Resolution(st.lines + [ResolveReturn(r, cur[0])], st.queues[k := cur[1..]]))
  }

  /** How many of the rows use queue `k`. */
  function CountKey(rows: seq<RegisterRow>, k: QueueKey): nat
  {
    if rows == [] then 0
    else CountKey(rows[..|rows| - 1], k) + (if RegKey(rows[|rows| - 1]) == k then 1 else 0)
  }

  /** How many earlier rows use the same queue as row `j`: the position of its credit note in that queue. */
  function Rank(rows: seq<RegisterRow>, j: nat): nat
    requires j < |rows|
  {
    CountKey(rows[..j], RegKey(rows[j]))
  }

  /** Every register return finds a credit note at its rank in its queue. */
  predicate AllFound(rows: seq<RegisterRow>, q: Queues)
  {
    forall j :: 0 <= j < |rows| ==> Rank(rows, j) < |Queue(q, RegKey(rows[j]))|
  }

  /** Return `j` was billed under the credit note at its rank in its queue. */
  ghost predicate MatchedAt(lines: seq<RegisterRow>, rows: seq<RegisterRow>, q: Queues, j: nat)
    requires j < |rows|
  {
    && j < |lines|
    && Rank(rows, j) < |Queue(q, RegKey(rows[j]))|
    && lines[j] == ResolveReturn(rows[j], Queue(q, RegKey(rows[j]))[Rank(rows, j)])
  }

  /** Queue `k` has lost exactly one head per return filed under `k`. */
  ghost predicate Advanced(after: Queues, rows: seq<RegisterRow>, q: Queues, k: QueueKey)
  {
    CountKey(rows, k) <= |Queue(q, k)| && Queue(after, k) == Queue(q, k)[CountKey(rows, k)..]
  }

  /** Matching succeeds iff every return finds a credit note at its rank. */
  ghost predicate FoundOk(rows: seq<RegisterRow>, q: Queues)
  {
    ResolveReturns(rows, q).Success? <==> AllFound(rows, q)
  }

  /** On success each return took the credit note at its rank. */
  ghost predicate LinesOk(rows: seq<RegisterRow>, q: Queues)
  {
    ResolveReturns(rows, q).Success? ==>
      && |ResolveReturns(rows, q).value.lines| == |rows|
      && forall j :: 0 <= j < |rows| ==> MatchedAt(ResolveReturns(rows, q).value.lines, rows, q, j)
  }

  /** On success each queue lost one head per return filed under it. */
  ghost predicate QueuesOk(rows: seq<RegisterRow>, q: Queues)
  {
    ResolveReturns(rows, q).Success? ==> forall k :: Advanced(ResolveReturns(rows, q).value.queues, rows, q, k)
  }

  /** Ranks and counts of a sequence of returns, against those of its prefix without the last row. */
  lemma RankPrefix(rows: seq<RegisterRow>)
    requires rows != []
    ensures var p := rows[..|rows| - 1];
      && (forall j :: 0 <= j < |p| ==> Rank(rows, j) == Rank(p, j) && rows[j] == p[j])
      && Rank(rows, |p|) == CountKey(p, RegKey(rows[|p|]))
      && forall k :: CountKey(rows, k) == CountKey(p, k) + (if RegKey(rows[|p|]) == k then 1 else 0)
  {
    var p := rows[..|rows| - 1];
    forall j | 0 <= j < |p|
      ensures Rank(rows, j) == Rank(p, j) && rows[j] == p[j]
    {
      assert rows[..j] == p[..j];
    }
  }

  /**
   * On a successful prefix, the next return finds a credit note iff fewer
   * returns than its queue's length came before it under its key.
   */
  lemma NextQueue(rows: seq<RegisterRow>, q: Queues)
    requires rows != [] && QueuesOk(rows[..|rows| - 1], q)
    requires ResolveReturns(rows[..|rows| - 1], q).Success?
    ensures var p := rows[..|rows| - 1];
      var kr := RegKey(rows[|rows| - 1]);
      var st := ResolveReturns(p, q).value;
      && CountKey(p, kr) <= |Queue(q, kr)|
      && Queue(st.queues, kr) == Queue(q, kr)[CountKey(p, kr)..]
  {
    var p := rows[..|rows| - 1];
    assert Advanced(ResolveReturns(p, q).value.queues, p, q, RegKey(rows[|rows| - 1]));
  }

  lemma {:induction false} QueuesAll(rows: seq<RegisterRow>, q: Queues)
    ensures QueuesOk(rows, q)
  {
    if rows != [] {
      var n := |rows| - 1;
      var p := rows[..n];
      QueuesAll(p, q);
      if ResolveReturns(rows, q).Success? {
        var kr := RegKey(rows[n]);
        var st := ResolveReturns(p, q).value;
        NextQueue(rows, q);
        RankPrefix(rows);
        var queues' := ResolveReturns(rows, q).value.queues;
        assert queues' == st.queues[kr := Queue(st.queues, kr)[1..]];
        forall k
          ensures Advanced(queues', rows, q, k)
        {
          assert Advanced(st.queues, p, q, k);
        }
      }
    }
  }

  /** A prefix where every return finds its credit note, extended by a return that finds one too. */
  lemma AllFoundExtends(rows: seq<RegisterRow>, q: Queues)
    requires rows != [] && AllFound(rows[..|rows| - 1], q)
    requires CountKey(rows[..|rows| - 1], RegKey(rows[|rows| - 1])) < |Queue(q, RegKey(rows[|rows| - 1]))|
    ensures AllFound(rows, q)
  {
    var n := |rows| - 1;
    var p := rows[..n];
    forall j | 0 <= j < |rows| ensures Rank(rows, j) < |Queue(q, RegKey(rows[j]))| {
      if j < n {
        RankPrefixAt(rows, j);
        assert Rank(p, j) < |Queue(q, RegKey(p[j]))|;
      }
    }
  }

  /** Below the last row, ranks in a sequence and in the sequence without its last row agree. */
  lemma RankPrefixAt(rows: seq<RegisterRow>, j: nat)
    requires j < |rows| - 1
    ensures Rank(rows, j) == Rank(rows[..|rows| - 1], j) && rows[j] == rows[..|rows| - 1][j]
  {
    assert rows[..j] == rows[..|rows| - 1][..j];
  }

  /** A prefix where some return misses its credit note, extended by one return: it still misses it. */
  lemma MissingKept(rows: seq<RegisterRow>, q: Queues)
    requires rows != [] && !AllFound(rows[..|rows| - 1], q)
    ensures !AllFound(rows, q)
  {
    var p := rows[..|rows| - 1];
    RankPrefix(rows);
    var j :| 0 <= j < |p| && Rank(p, j) >= |Queue(q, RegKey(p[j]))|;
    assert Rank(rows, j) >= |Queue(q, RegKey(rows[j]))|;
  }

  lemma {:induction false} FoundAll(rows: seq<RegisterRow>, q: Queues)
    ensures FoundOk(rows, q)
  {
    if rows != [] {
      var n := |rows| - 1;
      var p := rows[..n];
      FoundAll(p, q);
      if ResolveReturns(p, q).Failure? {
        MissingKept(rows, q);
      } else {
        QueuesAll(p, q);
        NextQueue(rows, q);
        if CountKey(p, RegKey(rows[n])) < |Queue(q, RegKey(rows[n]))| {
          AllFoundExtends(rows, q);
        } else {
          RankPrefix(rows);
          assert !(Rank(rows, n) < |Queue(q, RegKey(rows[n]))|);
        }
      }
    }
  }

  lemma {:induction false} LinesAll(rows: seq<RegisterRow>, q: Queues)
    ensures LinesOk(rows, q)
  {
    if rows != [] {
      var n := |rows| - 1;
      var p := rows[..n];
      LinesAll(p, q);
      QueuesAll(p, q);
      if ResolveReturns(rows, q).Success? {
        var r := rows[n];
        var kr := RegKey(r);
        var st := ResolveReturns(p, q).value;
        NextQueue(rows, q);
        var lines' := ResolveReturns(rows, q).value.lines;
        assert lines' == st.lines + [ResolveReturn(r, Queue(q, kr)[CountKey(p, kr)])];
        forall j | 0 <= j < |rows|
          ensures MatchedAt(lines', rows, q, j)
        {
          if j < n {
            assert MatchedAt(st.lines, p, q, j);
            RankPrefixAt(rows, j);
          } else {
            assert Rank(rows, n) == CountKey(p, kr);
          }
        }
      }
    }
  }

  /**
   * FIFO pairing, all rows at once: matching succeeds iff every register return
   * finds a credit note at its rank in its queue; then the j-th return takes the
   * credit note at its rank, and each queue has lost exactly as many heads as
   * there are returns under its key.
   */
  lemma {:induction false} ResolveReturnsSpec(rows: seq<RegisterRow>, q: Queues)
    ensures ResolveReturns(rows, q).Success? <==>
      forall j :: 0 <= j < |rows| ==> Rank(rows, j) < |Queue(q, RegKey(rows[j]))|
    ensures ResolveReturns(rows, q).Success? ==>
      && |ResolveReturns(rows, q).value.lines| == |rows|
      && (forall j :: 0 <= j < |rows| ==>
            ResolveReturns(rows, q).value.lines[j] == ResolveReturn(rows[j], Queue(q, RegKey(rows[j]))[Rank(rows, j)]))
      && (forall k :: CountKey(rows, k) <= |Queue(q, k)| &&
            Queue(ResolveReturns(rows, q).value.queues, k) == Queue(q, k)[CountKey(rows, k)..])
  {
    FoundAll(rows, q);
    LinesAll(rows, q);
    QueuesAll(rows, q);
    if ResolveReturns(rows, q).Success? {
      var st := ResolveReturns(rows, q).value;
      forall j | 0 <= j < |rows|
        ensures st.lines[j] == ResolveReturn(rows[j], Queue(q, RegKey(rows[j]))[Rank(rows, j)])
      {
        assert MatchedAt(st.lines, rows, q, j);
      }
      forall k
        ensures CountKey(rows, k) <= |Queue(q, k)| && Queue(st.queues, k) == Queue(q, k)[CountKey(rows, k)..]
      {
        assert Advanced(st.queues, rows, q, k);
      }
    }
  }

  /**
   * The loop over the register returns, updating the rows and the queues in
   * place; it aborts at the first return whose queue is empty.
   */
  method MatchReturns(regReturns: seq<RegisterRow>, queues: Queues) returns (res: Result<seq<RegisterRow>, Error>)
    ensures ResolveReturns(regReturns, queues).Success? ==> res == Success(ResolveReturns(regReturns, queues).value.lines)
    ensures ResolveReturns(regReturns, queues).Failure? ==> res == Failure(ResolveReturns(regReturns, queues).error)
  {
    var lines := regReturns;
    var q := queues;
    var i := 0;
    while i < |lines|
      invariant 0 <= i <= |lines| == |regReturns|
      invariant ResolveReturns(regReturns[..i], queues) == Success(Resolution(lines[..i], q))
      invariant forall j :: i <= j < |lines| ==> lines[j] == regReturns[j]
    {
      assert regReturns[..i + 1][..i] == regReturns[..i];
      assert lines[i] == regReturns[i];
      var obj := lines[i];
      obj := obj.(roundoff := -obj.roundoff);
      var key := (obj.date, obj.inum);
      var inums := Queue(q, key);
      if |inums| == 0 {
        // the diagnostic is printed, then `pop(0)` raises
        FailureIsKept(regReturns, queues, i + 1);
        return Failure(NoCreditNote(obj.date, obj.inum));
      }
      obj := obj.(inum := inums[0]);
      q := q[key := inums[1..]];
      ghost var done := lines[..i];
      lines := lines[i := obj];
      assert lines[..i + 1] == done + [obj];
      i := i + 1;
    }
    assert regReturns[..i] == regReturns;
    assert lines[..i] == lines;
    return Success(lines);
  }

  /** Once matching fails on a prefix, it fails on the whole sequence with the same error. */
  lemma {:induction false} FailureIsKept(rows: seq<RegisterRow>, q: Queues, m: nat)
    requires m <= |rows|
    requires ResolveReturns(rows[..m], q).Failure?
    ensures ResolveReturns(rows, q) == ResolveReturns(rows[..m], q)
    decreases |rows| - m
  {
    if m < |rows| {
      assert rows[..m + 1][..m] == rows[..m];
      FailureIsKept(rows, q, m + 1);
    } else {
      assert rows[..m] == rows;
    }
  }

  /** Among returns under the same key, a later one has a strictly higher rank. */
  lemma {:induction false} RankIncreases(rows: seq<RegisterRow>, i: nat, j: nat)
    requires i < j < |rows| && RegKey(rows[i]) == RegKey(rows[j])
    ensures Rank(rows, i) < Rank(rows, j)
  {
    CountKeyGrows(rows, i + 1, j, RegKey(rows[j]));
    assert rows[..i + 1][..i] == rows[..i];
  }

  lemma {:induction false} CountKeyGrows(rows: seq<RegisterRow>, a: nat, b: nat, k: QueueKey)
    requires a <= b <= |rows|
    ensures CountKey(rows[..a], k) <= CountKey(rows[..b], k)
    decreases b - a
  {
    if a < b {
      CountKeyGrows(rows, a, b - 1, k);
      assert rows[..b][..b - 1] == rows[..b - 1];
    }
  }

  /** When no queue repeats a credit note, two returns under the same key never get the same credit note. */
  lemma ResolvedCreditNotesDistinct(rows: seq<RegisterRow>, q: Queues, i: nat, j: nat)
    requires i < j < |rows| && RegKey(rows[i]) == RegKey(rows[j])
    requires NoDup(Queue(q, RegKey(rows[i])))
    requires ResolveReturns(rows, q).Success?
    ensures |ResolveReturns(rows, q).value.lines| == |rows|
    ensures ResolveReturns(rows, q).value.lines[i].inum != ResolveReturns(rows, q).value.lines[j].inum
  {
    ResolveReturnsSpec(rows, q);
    RankIncreases(rows, i, j);
  }
}
