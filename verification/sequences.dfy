/** Order-preserving filtering of a sequence, as JavaScript's
    `Array.prototype.filter` and a `forEach` with an `if` inside both do. */
module Sequences {

  /** `ys` can be obtained from `xs` by deleting elements, keeping the order
      (matched greedily from the back). */
  ghost predicate IsSubsequence<T>(ys: seq<T>, xs: seq<T>)
    decreases |xs|
  {
    if ys == [] then true
    else if xs == [] then false
    else if ys[|ys| - 1] == xs[|xs| - 1] then IsSubsequence(ys[..|ys| - 1], xs[..|xs| - 1])
    else IsSubsequence(ys, xs[..|xs| - 1])
  }

  /** The elements of `xs` satisfying `p`, in their original order. */
  function Filter<T(!new)>(p: T -> bool, xs: seq<T>): (r: seq<T>)
    ensures |r| <= |xs|
    ensures forall x :: x in r <==> x in xs && p(x)
    ensures forall k :: 0 <= k < |r| ==> p(r[k])
    // every occurrence is kept: repeats are not collapsed
    ensures forall x {:trigger multiset(r)[x]} :: multiset(r)[x] == if p(x) then multiset(xs)[x] else 0
    decreases |xs|
  {
    if xs == [] then []
    else
      var front := Filter(p, xs[..|xs| - 1]);
      var last := xs[|xs| - 1];
      assert xs == xs[..|xs| - 1] + [last];
      if p(last) then front + [last] else front
  }

  /** Filtering keeps the surviving elements in their original relative
      order. */
  lemma {:induction false} FilterIsSubsequence<T(!new)>(p: T -> bool, xs: seq<T>)
    ensures IsSubsequence(Filter(p, xs), xs)
    decreases |xs|
  {
    if xs != [] {
      var front := xs[..|xs| - 1];
      FilterIsSubsequence(p, front);
      var last := xs[|xs| - 1];
      var r := Filter(p, xs);
      if p(last) {
        assert r == Filter(p, front) + [last];
        assert r[..|r| - 1] == Filter(p, front);
      } else {
        assert r == Filter(p, front);
        SubsequenceOfPrefix(r, front, last);
      }
    }
  }

  /** A subsequence of a prefix is a subsequence of the whole. */
  lemma {:induction false} SubsequenceOfPrefix<T>(ys: seq<T>, front: seq<T>, last: T)
    requires IsSubsequence(ys, front)
    ensures IsSubsequence(ys, front + [last])
    decreases |front|, 1
  {
    var xs := front + [last];
    assert xs[..|xs| - 1] == front;
    if ys != [] && ys[|ys| - 1] == last {
      SubsequenceDropLast(ys, front);
    }
  }

  /** Dropping the last element of a subsequence leaves a subsequence. */
  lemma {:induction false} SubsequenceDropLast<T>(ys: seq<T>, xs: seq<T>)
    requires ys != [] && IsSubsequence(ys, xs)
    ensures IsSubsequence(ys[..|ys| - 1], xs)
    decreases |xs|, 0
  {
    var front, last := xs[..|xs| - 1], xs[|xs| - 1];
    assert xs == front + [last];
    if ys[|ys| - 1] == last {
      SubsequenceOfPrefix(ys[..|ys| - 1], front, last);
    } else {
      SubsequenceDropLast(ys, front);
      SubsequenceOfPrefix(ys[..|ys| - 1], front, last);
    }
  }

}
