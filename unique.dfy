/** Order-preserving de-duplication, the one collection rule every entry point
    of the scraper repeats: `list(dict.fromkeys(xs))`, `[...new Set(xs)]`, the
    `seen`-set loops and the `!links.includes(link)` guards all keep the first
    occurrence of each value, in the order the values first appear. */
module Unique {

  predicate NoDup(s: seq<string>) {
    forall i, j :: 0 <= i < j < |s| ==> s[i] != s[j]
  }

  /** The position where `x` first occurs in `s`. */
  function FirstIndex(s: seq<string>, x: string): (k: nat)
    requires x in s
    ensures k < |s| && s[k] == x
    ensures forall j :: 0 <= j < k ==> s[j] != x
  {
    if s[0] == x then 0 else 1 + FirstIndex(s[1..], x)
  }

  /** The distinct values of `s`, each kept where it first occurs. */
  function Dedup(s: seq<string>): (r: seq<string>)
    ensures forall x :: x in r <==> x in s
    ensures NoDup(r)
    ensures |r| <= |s|
  {
    if s == [] then []
    else
      var d := Dedup(s[..|s| - 1]);
      var x := s[|s| - 1];
      assert forall y :: y in s <==> y in s[..|s| - 1] || y == x by {
        assert s == s[..|s| - 1] + [x];
      }
      if x in d then d else d + [x]
  }

  /** Unfolding `Dedup` by one element at the end. */
  lemma DedupSnoc(s: seq<string>, x: string)
    ensures Dedup(s + [x]) == if x in Dedup(s) then Dedup(s) else Dedup(s) + [x]
  {
    SnocParts(s, x);
  }

  lemma SnocParts(s: seq<string>, x: string)
    ensures |s + [x]| - 1 == |s| && (s + [x])[..|s|] == s && (s + [x])[|s|] == x
  {
  }

  /** The kept values appear in the order of their first occurrences in `s`,
      so `Dedup(s)` is the subsequence of first occurrences. */
  lemma {:induction false} DedupOrder(s: seq<string>, i: nat, j: nat)
    requires i < j < |Dedup(s)|
    ensures FirstIndex(s, Dedup(s)[i]) < FirstIndex(s, Dedup(s)[j])
  {
    var n := |s| - 1;
    var p := s[..n];
    var d := Dedup(p);
    assert s == p + [s[n]];
    var a, b := Dedup(s)[i], Dedup(s)[j];
    assert a in d by {
      if s[n] !in d { assert i < |d|; }
    }
    FirstIndexPrefix(s, n, a);
    if j < |d| {
      DedupOrder(p, i, j);
      FirstIndexPrefix(s, n, b);
    } else {
      assert b == s[n] && b !in p;
    }
  }

  /** First occurrences inside a prefix are first occurrences in the whole. */
  lemma FirstIndexPrefix(s: seq<string>, n: nat, x: string)
    requires n <= |s| && x in s[..n]
    ensures FirstIndex(s, x) == FirstIndex(s[..n], x)
  {
    var k := FirstIndex(s[..n], x);
    var m := FirstIndex(s, x);
    assert s[k] == x;
  }

  /** A duplicate-free sequence is its own de-duplication. */
  lemma {:induction false} DedupOfNoDup(s: seq<string>)
    requires NoDup(s)
    ensures Dedup(s) == s
  {
    if s != [] {
      var p := s[..|s| - 1];
      assert NoDup(p);
      DedupOfNoDup(p);
      assert s[|s| - 1] !in p;
      assert s == p + [s[|s| - 1]];
    }
  }

  /** Appending the same value to two lists with the same de-duplication
      keeps their de-duplications equal. */
  lemma DedupSnocSame(p: seq<string>, q: seq<string>, x: string)
    requires Dedup(p) == Dedup(q)
    ensures Dedup(p + [x]) == Dedup(q + [x])
  {
    DedupSnoc(p, x);
    DedupSnoc(q, x);
  }

  /** De-duplication is idempotent. */
  lemma DedupTwice(a: seq<string>)
    ensures Dedup(Dedup(a)) == Dedup(a)
  {
    DedupOfNoDup(Dedup(a));
  }

  lemma DedupAppendNil(a: seq<string>, b: seq<string>)
    requires b == []
    ensures Dedup(a + b) == Dedup(Dedup(a) + b)
  {
    DedupTwice(a);
    assert a + b == a;
    assert Dedup(a) + b == Dedup(a);
  }

  /** A non-empty `b` appended to `a`: `a`, all of `b` but its last value,
      then that value. */
  lemma SplitLast(a: seq<string>, b: seq<string>)
    requires b != []
    ensures a + b == (a + b[..|b| - 1]) + [b[|b| - 1]]
  {
    assert b == b[..|b| - 1] + [b[|b| - 1]];
  }

  /** A prefix of `n` values is the prefix of `n - 1` values and the
      `n`-th. */
  lemma PrefixSnoc(s: seq<string>, n: nat)
    requires 0 < n <= |s|
    ensures s[..n] == s[..n - 1] + [s[n - 1]]
  {
  }

  lemma DedupAppendStep(a: seq<string>, b: seq<string>)
    requires b != []
    requires Dedup(a + b[..|b| - 1]) == Dedup(Dedup(a) + b[..|b| - 1])
    ensures Dedup(a + b) == Dedup(Dedup(a) + b)
  {
    SplitLast(a, b);
    SplitLast(Dedup(a), b);
    DedupSnocSame(a + b[..|b| - 1], Dedup(a) + b[..|b| - 1], b[|b| - 1]);
  }

  /** De-duplicating a prefix first changes nothing. */
  lemma {:induction false} DedupAppend(a: seq<string>, b: seq<string>)
    ensures Dedup(a + b) == Dedup(Dedup(a) + b)
  {
    if b == [] {
      DedupAppendNil(a, b);
    } else {
      DedupAppend(a, b[..|b| - 1]);
      DedupAppendStep(a, b);
    }
  }

  /** Values already seen add nothing. */
  lemma {:induction false} DedupAbsorbs(a: seq<string>, b: seq<string>)
    requires forall x :: x in b ==> x in a
    ensures Dedup(a + b) == Dedup(a)
  {
    if b == [] {
      assert a + b == a;
    } else {
      var c, x := b[..|b| - 1], b[|b| - 1];
      assert x in b;
      DedupAbsorbs(a, c);
      assert a + b == (a + c) + [x];
      DedupSnoc(a + c, x);
    }
  }

  /** The values of `a` come first: `Dedup(a + b)` is `Dedup(a)` followed by
      the values of `b` that `a` does not hold. */
  lemma {:induction false} DedupPrefix(a: seq<string>, b: seq<string>)
    ensures |Dedup(a)| <= |Dedup(a + b)|
    ensures Dedup(a + b)[..|Dedup(a)|] == Dedup(a)
    ensures forall i :: |Dedup(a)| <= i < |Dedup(a + b)| ==> Dedup(a + b)[i] in b && Dedup(a + b)[i] !in a
  {
    if b == [] {
      AppendNil(a, b);
    } else {
      DedupPrefix(a, b[..|b| - 1]);
      DedupPrefixStep(a, b);
    }
  }

  lemma AppendNil(a: seq<string>, b: seq<string>)
    requires b == []
    ensures a + b == a
  {
  }

  /** The three facts `DedupPrefix` states about `a` and `b`. */
  predicate DedupKeepsPrefix(a: seq<string>, b: seq<string>) {
    |Dedup(a)| <= |Dedup(a + b)| &&
    Dedup(a + b)[..|Dedup(a)|] == Dedup(a) &&
    forall i :: |Dedup(a)| <= i < |Dedup(a + b)| ==> Dedup(a + b)[i] in b && Dedup(a + b)[i] !in a
  }

  lemma DedupPrefixStep(a: seq<string>, b: seq<string>)
    requires b != []
    requires DedupKeepsPrefix(a, b[..|b| - 1])
    ensures DedupKeepsPrefix(a, b)
  {
    var c, x := b[..|b| - 1], b[|b| - 1];
    SplitLast(a, b);
    DedupSnoc(a + c, x);
    var d := Dedup(a + c);
    LastSplit(b);
    assert forall y :: y in c ==> y in b;
    if x !in d {
      SnocKeeps(d, x, |Dedup(a)|);
      assert x !in a + c;
    }
  }

  /** Appending one value changes neither the earlier values nor a prefix. */
  lemma SnocKeeps(d: seq<string>, x: string, m: nat)
    requires m <= |d|
    ensures (d + [x])[..m] == d[..m] && (d + [x])[|d|] == x
    ensures forall i :: 0 <= i < |d| ==> (d + [x])[i] == d[i]
  {
  }

  /** A non-empty list is all of it but its last value, then that value. */
  lemma LastSplit(s: seq<string>)
    requires s != []
    ensures s == s[..|s| - 1] + [s[|s| - 1]]
  {
  }

  /** Appending at the end of a non-empty list keeps its head. */
  lemma ConsSnoc(s: seq<string>, x: string)
    requires s != []
    ensures s + [x] != [] && (s + [x])[0] == s[0] && (s + [x])[1..] == s[1..] + [x]
  {
  }
}
