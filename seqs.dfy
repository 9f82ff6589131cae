/** Sequence helpers shared by the transforms. */
module Seqs {

  predicate NoDup(s: seq<string>)
  {
    forall i, j :: 0 <= i < j < |s| ==> s[i] != s[j]
  }

  /** Reference definition: the first occurrence of each element, in order. */
  function Dedup(s: seq<string>): seq<string>
  {
    if s == [] then []
    else
      var d := Dedup(s[..|s| - 1]);
      if s[|s| - 1] in d then d else d + [s[|s| - 1]]
  }

  /** `Dedup` keeps every element once and nothing else. */
  lemma {:induction false} DedupSpec(s: seq<string>)
    ensures NoDup(Dedup(s))
    ensures forall x :: x in Dedup(s) <==> x in s
  {
    if s != [] {
      DedupSpec(s[..|s| - 1]);
      assert s == s[..|s| - 1] + [s[|s| - 1]];
    }
  }

  /** The rows in consecutive chunks of `n`; the last chunk may be shorter. */
  function Batches<T>(s: seq<T>, n: nat): (r: seq<seq<T>>)
    requires n > 0
    ensures forall b :: b in r ==> 0 < |b| <= n
    decreases |s|
  {
    if s == [] then []
    else if |s| <= n then [s]
    else [s[..n]] + Batches(s[n..], n)
  }

  function Flatten<T>(bs: seq<seq<T>>): seq<T>
  {
    if bs == [] then [] else bs[0] + Flatten(bs[1..])
  }

  /** Batching neither loses, repeats nor reorders a row. */
  lemma {:induction false} BatchesFlatten<T>(s: seq<T>, n: nat)
    requires n > 0
    ensures Flatten(Batches(s, n)) == s
    decreases |s|
  {
    if |s| > n {
      BatchesFlatten(s[n..], n);
      assert ([s[..n]] + Batches(s[n..], n))[1..] == Batches(s[n..], n);
      assert s[..n] + s[n..] == s;
    } else if s != [] {
      assert [s][1..] == [];
      assert s + [] == s;
    }
  }

  /** The chunk that starts at `i` runs to `i + n`, or to the end when fewer rows are left. */
  lemma BatchStep<T>(s: seq<T>, i: nat, j: nat, n: nat)
    requires n > 0 && i < |s|
    requires j == if i + n <= |s| then i + n else |s|
    ensures Batches(s[i..], n) == [s[i..j]] + Batches(s[j..], n)
  {
    if i + n < |s| {
      assert s[i..][..n] == s[i..j];
      assert s[i..][n..] == s[j..];
    } else {
      assert s[j..] == [];
      assert s[i..] == s[i..j];
    }
  }
}
