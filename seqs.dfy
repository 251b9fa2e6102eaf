/** `Array.prototype.filter` over immutable sequences, with the facts the
    components rely on: it keeps exactly the passing elements, in order. */
module Seqs {

  /** `sub` can be obtained from `xs` by deleting elements (order kept). */
  predicate IsSubsequence<T(==)>(sub: seq<T>, xs: seq<T>)
    decreases |xs|
  {
    if sub == [] then true
    else if xs == [] then false
    else if sub[0] == xs[0] then IsSubsequence(sub[1..], xs[1..])
    else IsSubsequence(sub, xs[1..])
  }

  /** The elements of `xs` for which `p` holds, in their original order. */
  function Filter<T(==,!new)>(xs: seq<T>, p: T -> bool): (r: seq<T>)
    ensures |r| <= |xs|
    ensures forall k :: 0 <= k < |r| ==> p(r[k]) && r[k] in xs
  {
    if xs == [] then []
    else
      var rest := Filter(xs[1..], p);
      if p(xs[0]) then [xs[0]] + rest else rest
  }

  /** Filtering keeps every passing element as often as it occurs, and no
      other element. */
  lemma {:induction false} FilterCounts<T(!new)>(xs: seq<T>, p: T -> bool)
    ensures forall x :: multiset(Filter(xs, p))[x] == if p(x) then multiset(xs)[x] else 0
  {
    if xs != [] {
      FilterCounts(xs[1..], p);
      assert xs == [xs[0]] + xs[1..];
    }
  }

  /** Filtering only deletes elements: what is left keeps its order. */
  lemma {:induction false} FilterIsSubsequence<T(!new)>(xs: seq<T>, p: T -> bool)
    ensures IsSubsequence(Filter(xs, p), xs)
  {
    if xs != [] {
      FilterIsSubsequence(xs[1..], p);
      var rest := Filter(xs[1..], p);
      if !p(xs[0]) {
        SubsequenceSkip(rest, xs);
      }
    }
  }

  /** A subsequence of the tail is a subsequence of the whole. */
  lemma {:induction false} SubsequenceSkip<T(!new)>(sub: seq<T>, xs: seq<T>)
    requires xs != [] && IsSubsequence(sub, xs[1..])
    ensures IsSubsequence(sub, xs)
    decreases |xs|, 0
  {
    if sub != [] && sub[0] == xs[0] {
      // IsSubsequence(sub, xs) reduces to IsSubsequence(sub[1..], xs[1..])
      SubsequenceTail(sub, xs[1..]);
    }
  }

  /** Dropping the head of a non-empty subsequence keeps it a subsequence. */
  lemma {:induction false} SubsequenceTail<T(!new)>(sub: seq<T>, xs: seq<T>)
    requires sub != [] && IsSubsequence(sub, xs)
    ensures IsSubsequence(sub[1..], xs)
    decreases |xs|, 1
  {
    if xs != [] {
      if sub[0] == xs[0] {
        SubsequenceSkip(sub[1..], xs);
      } else {
        SubsequenceTail(sub, xs[1..]);
        SubsequenceSkip(sub[1..], xs);
      }
    }
  }

  /** When every element passes, filtering changes nothing. */
  lemma {:induction false} FilterAllPass<T(!new)>(xs: seq<T>, p: T -> bool)
    requires forall k :: 0 <= k < |xs| ==> p(xs[k])
    ensures Filter(xs, p) == xs
  {
    if xs != [] {
      FilterAllPass(xs[1..], p);
    }
  }

  /** When no element passes, nothing is left. */
  lemma {:induction false} FilterNonePass<T(!new)>(xs: seq<T>, p: T -> bool)
    requires forall k :: 0 <= k < |xs| ==> !p(xs[k])
    ensures Filter(xs, p) == []
  {
    if xs != [] {
      FilterNonePass(xs[1..], p);
    }
  }

  /** Filtering twice by the same test is filtering once. */
  lemma {:induction false} FilterIdempotent<T(!new)>(xs: seq<T>, p: T -> bool)
    ensures Filter(Filter(xs, p), p) == Filter(xs, p)
  {
    FilterAllPass(Filter(xs, p), p);
  }

  /** Two tests that agree on every element filter alike. */
  lemma {:induction false} FilterCongruent<T(!new)>(xs: seq<T>, p: T -> bool, q: T -> bool)
    requires forall k :: 0 <= k < |xs| ==> p(xs[k]) == q(xs[k])
    ensures Filter(xs, p) == Filter(xs, q)
  {
    if xs != [] {
      FilterCongruent(xs[1..], p, q);
    }
  }

  /** Filtering a concatenation filters each part. */
  lemma {:induction false} FilterAppend<T(!new)>(a: seq<T>, b: seq<T>, p: T -> bool)
    ensures Filter(a + b, p) == Filter(a, p) + Filter(b, p)
  {
    if a == [] {
      assert a + b == b;
    } else {
      assert (a + b)[1..] == a[1..] + b;
      FilterAppend(a[1..], b, p);
    }
  }
}
