/**
 * `Array.prototype.filter` over sequences, and the facts the list page relies on:
 * the result is a subsequence, it keeps every kept element as often as the input
 * holds it and nothing else, and two filters commute.
 */
module Seqs {

  /** `a` can be obtained from `b` by deleting elements (order preserved). */
  predicate IsSubsequence<T(==)>(a: seq<T>, b: seq<T>)
    decreases |b|
  {
    a == [] || (b != [] && ((a[0] == b[0] && IsSubsequence(a[1..], b[1..])) || IsSubsequence(a, b[1..])))
  }

  /** `s.filter(keep)` */
  function Filter<T>(s: seq<T>, keep: T -> bool): (r: seq<T>)
    ensures |r| <= |s|
    ensures forall i | 0 <= i < |r| :: keep(r[i])
  {
    if s == [] then []
    else if keep(s[0]) then [s[0]] + Filter(s[1..], keep)
    else Filter(s[1..], keep)
  }

  lemma {:induction false} FilterIsSubsequence<T>(s: seq<T>, keep: T -> bool)
    ensures IsSubsequence(Filter(s, keep), s)
  {
    if s != [] {
      FilterIsSubsequence(s[1..], keep);
      var r := Filter(s[1..], keep);
      if keep(s[0]) {
        assert ([s[0]] + r)[1..] == r;
      } else {
        SubsequenceOfTail(r, s);
      }
    }
  }

  /** Dropping the head of the larger sequence keeps a subsequence a subsequence. */
  lemma SubsequenceOfTail<T>(a: seq<T>, b: seq<T>)
    requires b != [] && IsSubsequence(a, b[1..])
    ensures IsSubsequence(a, b)
  {
  }

  /** Each value occurs in the result as often as in `s` when `keep` accepts it,
      and not at all otherwise: together with `FilterIsSubsequence` this pins the
      result down. */
  lemma {:induction false} FilterMultiplicity<T>(s: seq<T>, keep: T -> bool, x: T)
    ensures multiset(Filter(s, keep))[x] == if keep(x) then multiset(s)[x] else 0
  {
    if s != [] {
      FilterMultiplicity(s[1..], keep, x);
      assert s == [s[0]] + s[1..];
      assert multiset(s) == multiset([s[0]]) + multiset(s[1..]);
    }
  }

  /** Membership in the result: the element is in `s` and `keep` accepts it. */
  lemma FilterMembership<T>(s: seq<T>, keep: T -> bool, x: T)
    ensures x in Filter(s, keep) <==> x in s && keep(x)
  {
    FilterMultiplicity(s, keep, x);
  }

  /** When `keep` accepts every element, filtering returns the input unchanged. */
  lemma {:induction false} FilterKeepsAll<T>(s: seq<T>, keep: T -> bool)
    requires forall i | 0 <= i < |s| :: keep(s[i])
    ensures Filter(s, keep) == s
  {
    if s != [] {
      FilterKeepsAll(s[1..], keep);
      assert [s[0]] + s[1..] == s;
    }
  }

  /** Two filters applied one after the other give the same result in either order. */
  lemma {:induction false} FilterCommutes<T>(s: seq<T>, p: T -> bool, q: T -> bool)
    ensures Filter(Filter(s, p), q) == Filter(Filter(s, q), p)
  {
    if s != [] {
      FilterCommutes(s[1..], p, q);
      var t := s[1..];
      assert Filter(Filter(s, p), q) == (if p(s[0]) && q(s[0]) then [s[0]] else []) + Filter(Filter(t, p), q) by {
        if p(s[0]) {
          assert ([s[0]] + Filter(t, p))[1..] == Filter(t, p);
        }
      }
      assert Filter(Filter(s, q), p) == (if p(s[0]) && q(s[0]) then [s[0]] else []) + Filter(Filter(t, q), p) by {
        if q(s[0]) {
          assert ([s[0]] + Filter(t, q))[1..] == Filter(t, q);
        }
      }
    }
  }

  /** Filtering depends only on the decisions `keep` makes on the elements of `s`. */
  lemma {:induction false} FilterSameDecisions<T>(s: seq<T>, p: T -> bool, q: T -> bool)
    requires forall i | 0 <= i < |s| :: p(s[i]) == q(s[i])
    ensures Filter(s, p) == Filter(s, q)
  {
    if s != [] {
      FilterSameDecisions(s[1..], p, q);
    }
  }
}
