/**
  `Array.prototype.filter` and the order-preserving subsequence relation it
  produces. Every stage of the explore pipeline is one of these filters, so
  the facts proved here are what makes each stage stable (it keeps the
  relative order of the entries it retains).
 */
module Sequences {

  /** `r` can be obtained from `s` by deleting elements, without reordering. */
  predicate IsSubsequence<T(==)>(r: seq<T>, s: seq<T>)
    decreases |s|
  {
    r == [] ||
    (s != [] && ((r[0] == s[0] && IsSubsequence(r[1..], s[1..])) || IsSubsequence(r, s[1..])))
  }

  /** Every element of `r` satisfies `p`. */
  predicate AllSatisfy<T>(p: T -> bool, r: seq<T>)
  {
    forall i :: 0 <= i < |r| ==> p(r[i])
  }

  /** `s.filter(p)`: the elements of `s` that satisfy `p`, in their order. */
  function Filter<T(==)>(p: T -> bool, s: seq<T>): (r: seq<T>)
    ensures IsSubsequence(r, s)
    ensures AllSatisfy(p, r)
    ensures forall i :: 0 <= i < |s| && p(s[i]) ==> s[i] in r
    decreases |s|
  {
    if s == [] then []
    else
      var rest := Filter(p, s[1..]);
      assert forall i :: 1 <= i < |s| ==> s[i] == s[1..][i - 1];
      if p(s[0]) then
        assert ([s[0]] + rest)[1..] == rest;
        [s[0]] + rest
      else
        rest
  }

  lemma {:induction false} SubsequenceOfEmpty<T>(r: seq<T>)
    requires IsSubsequence(r, [])
    ensures r == []
  {
  }

  /** A subsequence of a subsequence is a subsequence. */
  lemma {:induction false} SubsequenceTransitive<T>(a: seq<T>, b: seq<T>, c: seq<T>)
    requires IsSubsequence(a, b) && IsSubsequence(b, c)
    ensures IsSubsequence(a, c)
    decreases |c|
  {
    if a != [] {
      if b[0] == c[0] && IsSubsequence(b[1..], c[1..]) {
        if a[0] == b[0] && IsSubsequence(a[1..], b[1..]) {
          SubsequenceTransitive(a[1..], b[1..], c[1..]);
        } else {
          SubsequenceTransitive(a, b[1..], c[1..]);
        }
      } else {
        SubsequenceTransitive(a, b, c[1..]);
      }
    }
  }

  /** A subsequence takes no element more often than the sequence holds it. */
  lemma {:induction false} SubsequenceMultiset<T>(r: seq<T>, s: seq<T>)
    requires IsSubsequence(r, s)
    ensures multiset(r) <= multiset(s)
    decreases |s|
  {
    if r != [] {
      assert s == [s[0]] + s[1..];
      if r[0] == s[0] && IsSubsequence(r[1..], s[1..]) {
        SubsequenceMultiset(r[1..], s[1..]);
        assert r == [r[0]] + r[1..];
      } else {
        SubsequenceMultiset(r, s[1..]);
      }
    }
  }

  /** Every sequence is a subsequence of itself. */
  lemma {:induction false} SubsequenceReflexive<T>(s: seq<T>)
    ensures IsSubsequence(s, s)
    decreases |s|
  {
    if s != [] {
      SubsequenceReflexive(s[1..]);
    }
  }

  /** No subsequence whose elements all satisfy `p` is longer than `Filter(p, s)`. */
  lemma {:induction false} FilterMaximal<T>(p: T -> bool, s: seq<T>, r: seq<T>)
    requires IsSubsequence(r, s) && AllSatisfy(p, r)
    ensures |r| <= |Filter(p, s)|
    decreases |s|
  {
    if r != [] {
      if r[0] == s[0] && IsSubsequence(r[1..], s[1..]) {
        FilterMaximal(p, s[1..], r[1..]);
      } else {
        FilterMaximal(p, s[1..], r);
      }
    }
  }

  /** `Filter(p, s)` is the only subsequence of `s` of its length whose
      elements all satisfy `p`: together with FilterMaximal this
      characterises the filter without reference to how it is computed. */
  lemma {:induction false} FilterUnique<T>(p: T -> bool, s: seq<T>, r: seq<T>)
    requires IsSubsequence(r, s) && AllSatisfy(p, r)
    requires |r| == |Filter(p, s)|
    ensures r == Filter(p, s)
    decreases |s|
  {
    if s == [] {
      SubsequenceOfEmpty(r);
    } else if r != [] {
      if r[0] == s[0] && IsSubsequence(r[1..], s[1..]) {
        FilterUnique(p, s[1..], r[1..]);
      } else {
        FilterMaximal(p, s[1..], r);
        FilterUnique(p, s[1..], r);
      }
    }
  }

  /** The conjunction of two tests. */
  function And<T>(p: T -> bool, q: T -> bool): T -> bool
  {
    x => p(x) && q(x)
  }

  /** Filtering twice is filtering once by the conjunction. */
  lemma {:induction false} FilterFilter<T>(p: T -> bool, q: T -> bool, s: seq<T>)
    ensures Filter(q, Filter(p, s)) == Filter(And(p, q), s)
    decreases |s|
  {
    if s != [] {
      FilterFilter(p, q, s[1..]);
    }
  }

  /** Filters by predicates that agree on every element give the same result. */
  lemma {:induction false} FilterAgree<T>(p: T -> bool, q: T -> bool, s: seq<T>)
    requires forall i :: 0 <= i < |s| ==> p(s[i]) == q(s[i])
    ensures Filter(p, s) == Filter(q, s)
    decreases |s|
  {
    if s != [] {
      FilterAgree(p, q, s[1..]);
    }
  }

  /** A filter that rejects nothing returns its input. */
  lemma {:induction false} FilterKeepAll<T>(p: T -> bool, s: seq<T>)
    requires AllSatisfy(p, s)
    ensures Filter(p, s) == s
    decreases |s|
  {
    if s != [] {
      FilterKeepAll(p, s[1..]);
    }
  }
}
