/** Order-preserving subsequences, the shape of every `Array.prototype.filter` result. */
module Seqs {

  /** `a` can be obtained from `b` by deleting elements, keeping the order of the rest. */
  predicate IsSubsequence<T(==)>(a: seq<T>, b: seq<T>)
    decreases |b|
  {
    a == [] || (b != [] && ((a[0] == b[0] && IsSubsequence(a[1..], b[1..])) || IsSubsequence(a, b[1..])))
  }

  /** How many elements of `s` satisfy `keep`. With `IsSubsequence(r, s)`, every element of
      `r` satisfying `keep` and `|r| == Count(s, keep)`, `r` is exactly the kept elements of
      `s` in order, each as often as it occurs: the result of `s.filter(keep)`. */
  function Count<T>(s: seq<T>, keep: T -> bool): nat
  {
    if s == [] then 0 else (if keep(s[0]) then 1 else 0) + Count(s[1..], keep)
  }

  /** Every element of a subsequence is an element of the whole. */
  lemma {:induction false} SubsequenceMembers<T>(a: seq<T>, b: seq<T>, x: T)
    requires IsSubsequence(a, b) && x in a
    ensures x in b
    decreases |b|
  {
    if a[0] == b[0] && IsSubsequence(a[1..], b[1..]) {
      if x != a[0] {
        SubsequenceMembers(a[1..], b[1..], x);
      }
    } else {
      SubsequenceMembers(a, b[1..], x);
    }
  }

  /** A subsequence made only of kept elements is no longer than the number of kept elements. */
  lemma {:induction false} KeptSubsequenceBound<T>(r: seq<T>, s: seq<T>, keep: T -> bool)
    requires IsSubsequence(r, s) && forall i :: 0 <= i < |r| ==> keep(r[i])
    ensures |r| <= Count(s, keep)
    decreases |s|
  {
    if r != [] {
      if r[0] == s[0] && IsSubsequence(r[1..], s[1..]) {
        assert keep(r[0]);
        KeptSubsequenceBound(r[1..], s[1..], keep);
      } else {
        KeptSubsequenceBound(r, s[1..], keep);
      }
    }
  }

  /** The three clauses pin the result: two sequences that both keep, in order, exactly as
      many kept elements of `s` as there are are equal. */
  lemma {:induction false} KeptSubsequenceUnique<T>(r1: seq<T>, r2: seq<T>, s: seq<T>, keep: T -> bool)
    requires IsSubsequence(r1, s) && (forall i :: 0 <= i < |r1| ==> keep(r1[i])) && |r1| == Count(s, keep)
    requires IsSubsequence(r2, s) && (forall i :: 0 <= i < |r2| ==> keep(r2[i])) && |r2| == Count(s, keep)
    ensures r1 == r2
    decreases |s|
  {
    if s != [] {
      if keep(s[0]) {
        HeadIsKept(r1, s, keep);
        HeadIsKept(r2, s, keep);
        KeptSubsequenceUnique(r1[1..], r2[1..], s[1..], keep);
        assert r1 == [r1[0]] + r1[1..] && r2 == [r2[0]] + r2[1..];
      } else {
        SkipsHead(r1, s, keep);
        SkipsHead(r2, s, keep);
        KeptSubsequenceUnique(r1, r2, s[1..], keep);
      }
    }
  }

  lemma HeadIsKept<T>(r: seq<T>, s: seq<T>, keep: T -> bool)
    requires s != [] && keep(s[0])
    requires IsSubsequence(r, s) && (forall i :: 0 <= i < |r| ==> keep(r[i])) && |r| == Count(s, keep)
    ensures r != [] && r[0] == s[0] && IsSubsequence(r[1..], s[1..])
    ensures forall i :: 0 <= i < |r[1..]| ==> keep(r[1..][i])
    ensures |r[1..]| == Count(s[1..], keep)
  {
    if IsSubsequence(r, s[1..]) {
      KeptSubsequenceBound(r, s[1..], keep);
    }
  }

  lemma SkipsHead<T>(r: seq<T>, s: seq<T>, keep: T -> bool)
    requires s != [] && !keep(s[0])
    requires IsSubsequence(r, s) && (forall i :: 0 <= i < |r| ==> keep(r[i]))
    ensures IsSubsequence(r, s[1..])
  {
    if r != [] {
      assert keep(r[0]);
    }
  }
}
