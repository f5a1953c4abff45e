/**
 * Sequence vocabulary used to state the scanner's ordering and uniqueness
 * promises. The recursive definitions peel the LAST element, because every
 * loop of the source appends to the end of a list.
 */
module Seqs {

  /** No element occurs twice. */
  predicate NoDups<T(==)>(s: seq<T>) {
    forall i, j | 0 <= i < j < |s| :: s[i] != s[j]
  }

  function Last<T>(s: seq<T>): T
    requires |s| > 0
  {
    s[|s| - 1]
  }

  function DropLast<T>(s: seq<T>): seq<T>
    requires |s| > 0
  {
    s[..|s| - 1]
  }

  /**
   * `xs` is obtained from `ys` by deleting elements: same elements, same
   * relative order. Matched greedily from the end.
   */
  predicate IsSubsequence<T(==)>(xs: seq<T>, ys: seq<T>)
    decreases |ys|
  {
    if xs == [] then true
    else if ys == [] then false
    else if Last(xs) == Last(ys) then IsSubsequence(DropLast(xs), DropLast(ys))
    else IsSubsequence(xs, DropLast(ys))
  }

  /** Appending to the longer sequence keeps a subsequence. */
  lemma {:induction false} SubsequenceExtend<T>(xs: seq<T>, ys: seq<T>, y: T)
    requires IsSubsequence(xs, ys)
    ensures IsSubsequence(xs, ys + [y])
    decreases |ys|, 1
  {
    assert DropLast(ys + [y]) == ys;
    if xs != [] && Last(xs) == y {
      SubsequenceDropLast(xs, ys);
    }
  }

  /** Forgetting the last element of the shorter sequence keeps a subsequence. */
  lemma {:induction false} SubsequenceDropLast<T>(xs: seq<T>, ys: seq<T>)
    requires xs != [] && IsSubsequence(xs, ys)
    ensures IsSubsequence(DropLast(xs), ys)
    decreases |ys|, 0
  {
    var ys' := DropLast(ys);
    assert ys == ys' + [Last(ys)];
    if Last(xs) == Last(ys) {
      SubsequenceExtend(DropLast(xs), ys', Last(ys));
    } else {
      SubsequenceDropLast(xs, ys');
      SubsequenceExtend(DropLast(xs), ys', Last(ys));
    }
  }

  /** Appending the same element to both keeps a subsequence. */
  lemma SubsequenceBoth<T>(xs: seq<T>, ys: seq<T>, y: T)
    requires IsSubsequence(xs, ys)
    ensures IsSubsequence(xs + [y], ys + [y])
  {
    assert DropLast(xs + [y]) == xs;
    assert DropLast(ys + [y]) == ys;
  }

  /** Subsequences of consecutive pieces concatenate. */
  lemma {:induction false} SubsequenceConcat<T>(a: seq<T>, b: seq<T>, c: seq<T>, d: seq<T>)
    requires IsSubsequence(a, b) && IsSubsequence(c, d)
    ensures IsSubsequence(a + c, b + d)
    decreases |d|
  {
    if d == [] {
      assert c == [];
      assert a + c == a && b + d == b;
    } else {
      var d' := DropLast(d);
      assert d == d' + [Last(d)];
      assert b + d == (b + d') + [Last(d)];
      if c != [] && Last(c) == Last(d) {
        var c' := DropLast(c);
        assert c == c' + [Last(c)];
        SubsequenceConcat(a, b, c', d');
        assert a + c == (a + c') + [Last(c)];
        SubsequenceBoth(a + c', b + d', Last(d));
      } else {
        SubsequenceConcat(a, b, c, d');
        SubsequenceExtend(a + c, b + d', Last(d));
      }
    }
  }

  /** Every element of a subsequence is an element of the sequence. */
  lemma {:induction false} SubsequenceMembers<T>(xs: seq<T>, ys: seq<T>, x: T)
    requires IsSubsequence(xs, ys) && x in xs
    ensures x in ys
    decreases |ys|
  {
    var ys' := DropLast(ys);
    assert ys == ys' + [Last(ys)];
    if Last(xs) == Last(ys) {
      var xs' := DropLast(xs);
      assert xs == xs' + [Last(xs)];
      if x != Last(xs) {
        SubsequenceMembers(xs', ys', x);
      }
    } else {
      SubsequenceMembers(xs, ys', x);
    }
  }

  /** A subsequence of a duplicate-free sequence is duplicate-free. */
  lemma {:induction false} SubsequenceNoDups<T>(xs: seq<T>, ys: seq<T>)
    requires IsSubsequence(xs, ys) && NoDups(ys)
    ensures NoDups(xs)
    decreases |ys|
  {
    if xs != [] {
      var ys' := DropLast(ys);
      assert ys == ys' + [Last(ys)];
      assert NoDups(ys');
      if Last(xs) == Last(ys) {
        var xs' := DropLast(xs);
        assert xs == xs' + [Last(xs)];
        SubsequenceNoDups(xs', ys');
        forall i, j | 0 <= i < j < |xs|
          ensures xs[i] != xs[j]
        {
          if j == |xs| - 1 {
            assert xs[i] == xs'[i];
            SubsequenceMembers(xs', ys', xs[i]);
          } else {
            assert xs[i] == xs'[i] && xs[j] == xs'[j];
          }
        }
      } else {
        SubsequenceNoDups(xs, ys');
      }
    }
  }

  /** Concatenation of a list of lists, in order. */
  function Flatten<T>(ss: seq<seq<T>>): seq<T>
    decreases |ss|
  {
    if ss == [] then [] else Flatten(DropLast(ss)) + Last(ss)
  }

  lemma {:induction false} FlattenConcat<T>(a: seq<seq<T>>, b: seq<seq<T>>)
    ensures Flatten(a + b) == Flatten(a) + Flatten(b)
    decreases |b|
  {
    if b == [] {
      assert a + b == a;
    } else {
      assert DropLast(a + b) == a + DropLast(b);
      assert Last(a + b) == Last(b);
      FlattenConcat(a, DropLast(b));
    }
  }

  /** The first `k + 1` runs flatten to the first `k` runs followed by run `k`. */
  lemma FlattenPrefixStep<T>(runs: seq<seq<T>>, k: int)
    requires 0 <= k < |runs|
    ensures Flatten(runs[..k + 1]) == Flatten(runs[..k]) + runs[k]
  {
    assert DropLast(runs[..k + 1]) == runs[..k] && Last(runs[..k + 1]) == runs[k];
  }

  /** Flattening splits at any run boundary. */
  lemma FlattenSplit<T>(runs: seq<seq<T>>, k: int)
    requires 0 <= k <= |runs|
    ensures Flatten(runs) == Flatten(runs[..k]) + Flatten(runs[k..])
  {
    var front, back := runs[..k], runs[k..];
    assert front + back == runs;
    FlattenConcat(front, back);
  }

  lemma {:induction false} FlattenMembers<T>(ss: seq<seq<T>>, x: T)
    ensures x in Flatten(ss) <==> exists k :: 0 <= k < |ss| && x in ss[k]
    decreases |ss|
  {
    if ss != [] {
      FlattenMembers(DropLast(ss), x);
      if x in Flatten(DropLast(ss)) {
        var k :| 0 <= k < |ss| - 1 && x in DropLast(ss)[k];
        assert x in ss[k];
      }
    }
  }

  /**
   * The elements of `s`, each kept at its first occurrence:
   * a duplicate-free list with the same elements.
   */
  function Dedupe<T(==)>(s: seq<T>): (r: seq<T>)
    ensures NoDups(r)
    ensures forall i | 0 <= i < |s| :: s[i] in r
    ensures forall i | 0 <= i < |r| :: r[i] in s
    decreases |s|
  {
    if s == [] then []
    else
      var d := Dedupe(DropLast(s));
      assert s == DropLast(s) + [Last(s)];
      if Last(s) in d then d else d + [Last(s)]
  }

  /** Deduplicating a flattened list keeps exactly the elements of its pieces, once each. */
  /** Runs without repeats that share no element flatten to a list without repeats. */
  lemma {:induction false} FlattenNoDups<T>(ss: seq<seq<T>>)
    requires forall k | 0 <= k < |ss| :: NoDups(ss[k])
    requires forall k, k', x | 0 <= k < k' < |ss| && x in ss[k] :: x !in ss[k']
    ensures NoDups(Flatten(ss))
    decreases |ss|
  {
    if ss != [] {
      var init, last := DropLast(ss), Last(ss);
      assert forall k | 0 <= k < |init| :: init[k] == ss[k];
      FlattenNoDups(init);
      var front := Flatten(init);
      forall i, j | 0 <= i < |front| && 0 <= j < |last|
        ensures front[i] != last[j]
      {
        FlattenMembers(init, front[i]);
        var k :| 0 <= k < |init| && front[i] in init[k];
        assert front[i] in ss[k] && last == ss[|ss| - 1];
      }
      NoDupsConcat(front, last);
    }
  }

  lemma DedupeFlattenMembers<T>(ss: seq<seq<T>>)
    ensures NoDups(Dedupe(Flatten(ss)))
    ensures forall x :: x in Dedupe(Flatten(ss)) <==> exists k :: 0 <= k < |ss| && x in ss[k]
  {
    var flat := Flatten(ss);
    var d := Dedupe(flat);
    forall x
      ensures x in d <==> exists k :: 0 <= k < |ss| && x in ss[k]
    {
      FlattenMembers(ss, x);
      if x in flat {
        var i :| 0 <= i < |flat| && flat[i] == x;
        assert flat[i] in d;
      }
      if x in d {
        var i :| 0 <= i < |d| && d[i] == x;
        assert d[i] in flat;
      }
    }
  }

  /** In a duplicate-free sequence the last element does not occur earlier. */
  lemma NoDupsDropLast<T>(s: seq<T>)
    requires |s| > 0 && NoDups(s)
    ensures NoDups(DropLast(s)) && Last(s) !in DropLast(s)
  {
    forall i | 0 <= i < |s| - 1
      ensures DropLast(s)[i] != Last(s)
    {
      assert DropLast(s)[i] == s[i];
    }
  }

  /** Two duplicate-free sequences with no common element concatenate to a duplicate-free one. */
  lemma NoDupsConcat<T>(a: seq<T>, b: seq<T>)
    requires NoDups(a) && NoDups(b)
    requires forall i, j | 0 <= i < |a| && 0 <= j < |b| :: a[i] != b[j]
    ensures NoDups(a + b)
  {
    forall i, j | 0 <= i < j < |a + b|
      ensures (a + b)[i] != (a + b)[j]
    {
      if j < |a| {
        assert (a + b)[i] == a[i] && (a + b)[j] == a[j];
      } else if i < |a| {
        assert (a + b)[i] == a[i] && (a + b)[j] == b[j - |a|];
      } else {
        assert (a + b)[i] == b[i - |a|] && (a + b)[j] == b[j - |a|];
      }
    }
  }

  /** Elements with pairwise different keys are pairwise different. */
  lemma NoDupsByKey<T, K>(s: seq<T>, keys: seq<K>, key: T -> K)
    requires |keys| == |s| && forall i | 0 <= i < |s| :: keys[i] == key(s[i])
    requires NoDups(keys)
    ensures NoDups(s)
  {
  }

  /** The union of `f(x)` over the elements of `xs`. */
  function UnionOver<T, U>(xs: seq<T>, f: T -> set<U>): set<U>
    decreases |xs|
  {
    if xs == [] then {} else UnionOver(DropLast(xs), f) + f(Last(xs))
  }

  lemma {:induction false} UnionOverMembers<T, U>(xs: seq<T>, f: T -> set<U>, y: U)
    ensures y in UnionOver(xs, f) <==> exists k | 0 <= k < |xs| :: y in f(xs[k])
    decreases |xs|
  {
    if xs != [] {
      var init := DropLast(xs);
      UnionOverMembers(init, f, y);
      assert forall k | 0 <= k < |init| :: init[k] == xs[k];
    }
  }

  /** The union does not depend on the order of the elements. */
  lemma UnionOverOrderFree<T, U>(xs: seq<T>, ys: seq<T>, f: T -> set<U>)
    requires multiset(xs) == multiset(ys)
    ensures UnionOver(xs, f) == UnionOver(ys, f)
  {
    forall y | y in UnionOver(xs, f)
      ensures y in UnionOver(ys, f)
    {
      UnionOverMembers(xs, f, y);
      UnionOverMembers(ys, f, y);
      var k :| 0 <= k < |xs| && y in f(xs[k]);
      assert xs[k] in multiset(ys);
    }
    forall y | y in UnionOver(ys, f)
      ensures y in UnionOver(xs, f)
    {
      UnionOverMembers(xs, f, y);
      UnionOverMembers(ys, f, y);
      var k :| 0 <= k < |ys| && y in f(ys[k]);
      assert ys[k] in multiset(xs);
    }
  }

  /** The sum of `f(x)` over the elements of `xs`. */
  function SumOver<T>(xs: seq<T>, f: T -> nat): nat
    decreases |xs|
  {
    if xs == [] then 0 else SumOver(DropLast(xs), f) + f(Last(xs))
  }
}
