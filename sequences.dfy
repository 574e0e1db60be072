/** The array primitives the link manager is built from, on Dafny sequences:
    `indexOf` and `filter` of JavaScript arrays, plus the subsequence relation
    used to state what a filter keeps. */
module Sequences {

  /** JavaScript's `Array.prototype.indexOf`: the first position of `x`, or -1. */
  function IndexOf<T(==)>(xs: seq<T>, x: T): (r: int)
    ensures -1 <= r < |xs|
    ensures r == -1 <==> x !in xs
    ensures 0 <= r ==> xs[r] == x && x !in xs[..r]
  {
    if xs == [] then -1
    else if xs[0] == x then 0
    else
      var k := IndexOf(xs[1..], x);
      assert xs[1..][..if k < 0 then 0 else k] == xs[1..if k < 0 then 1 else k + 1];
      if k < 0 then -1 else k + 1
  }

  /** A position holding `x` with no earlier `x` is the one `IndexOf` finds. */
  lemma IndexOfUnique<T>(xs: seq<T>, x: T, k: nat)
    requires k < |xs| && xs[k] == x && x !in xs[..k]
    ensures IndexOf(xs, x) == k
  {
  }

  /** Appending an element leaves the first position of everything already present alone,
      and a value seen for the first time is found at the end. */
  lemma IndexOfAppend<T>(xs: seq<T>, y: T, x: T)
    ensures x in xs ==> IndexOf(xs + [y], x) == IndexOf(xs, x)
    ensures x !in xs && x == y ==> IndexOf(xs + [y], x) == |xs|
  {
    if x in xs {
      var k := IndexOf(xs, x);
      assert (xs + [y])[..k] == xs[..k];
      IndexOfUnique(xs + [y], x, k);
    } else if x == y {
      assert (xs + [y])[..|xs|] == xs;
      IndexOfUnique(xs + [y], x, |xs|);
    }
  }

  /** JavaScript's `Array.prototype.map`: `f` applied to every element, in place. */
  function Map<T, U>(f: T -> U, s: seq<T>): (r: seq<U>)
    ensures |r| == |s|
    ensures forall i :: 0 <= i < |s| ==> r[i] == f(s[i])
  {
    if s == [] then [] else [f(s[0])] + Map(f, s[1..])
  }

  /** JavaScript's `Array.prototype.filter`: the elements satisfying `p`, in order. */
  function Filter<T>(p: T -> bool, s: seq<T>): (r: seq<T>)
    ensures |r| <= |s|
    ensures forall i :: 0 <= i < |r| ==> r[i] in s && p(r[i])
    ensures forall i :: 0 <= i < |s| && p(s[i]) ==> s[i] in r
  {
    if s == [] then []
    else (if p(s[0]) then [s[0]] else []) + Filter(p, s[1..])
  }

  /** Membership in a filtered sequence, both directions. */
  lemma FilterMember<T>(p: T -> bool, s: seq<T>, x: T)
    ensures x in Filter(p, s) <==> x in s && p(x)
  {
  }

  /** A filter keeps every passing element exactly as often as it occurs, and drops the rest. */
  lemma {:induction false} FilterCount<T(!new)>(p: T -> bool, s: seq<T>)
    ensures forall x :: multiset(Filter(p, s))[x] == if p(x) then multiset(s)[x] else 0
  {
    if s != [] {
      FilterCount(p, s[1..]);
      assert s == [s[0]] + s[1..];
    }
  }

  /** Filtering distributes over appending one element at the end. */
  lemma {:induction false} FilterAppend<T>(p: T -> bool, s: seq<T>, y: T)
    ensures Filter(p, s + [y]) == Filter(p, s) + (if p(y) then [y] else [])
  {
    var tail: seq<T> := if p(y) then [y] else [];
    if s == [] {
      assert s + [y] == [y];
      assert Filter(p, [y]) == tail + Filter(p, []);
    } else {
      var t := s + [y];
      var head: seq<T> := if p(s[0]) then [s[0]] else [];
      assert t[0] == s[0] && t[1..] == s[1..] + [y];
      FilterAppend(p, s[1..], y);
      calc {
        Filter(p, t);
        head + Filter(p, s[1..] + [y]);
        head + (Filter(p, s[1..]) + tail);
        (head + Filter(p, s[1..])) + tail;
        Filter(p, s) + tail;
      }
    }
  }

  /** Two tests that agree on every element of `s` filter it alike. */
  lemma {:induction false} FilterAgree<T>(p: T -> bool, q: T -> bool, s: seq<T>)
    requires forall i :: 0 <= i < |s| ==> p(s[i]) == q(s[i])
    ensures Filter(p, s) == Filter(q, s)
  {
    if s != [] {
      FilterAgree(p, q, s[1..]);
    }
  }

  /** A filter that every element passes changes nothing. */
  lemma {:induction false} FilterAllPass<T>(p: T -> bool, s: seq<T>)
    requires forall i :: 0 <= i < |s| ==> p(s[i])
    ensures Filter(p, s) == s
  {
    if s != [] {
      FilterAllPass(p, s[1..]);
    }
  }

  /** A filter that no element passes yields the empty sequence. */
  lemma {:induction false} FilterNonePass<T>(p: T -> bool, s: seq<T>)
    requires forall i :: 0 <= i < |s| ==> !p(s[i])
    ensures Filter(p, s) == []
  {
    if s != [] {
      FilterNonePass(p, s[1..]);
    }
  }

  /** `a` is obtained from `b` by deleting elements, keeping the order of the rest. */
  ghost predicate IsSubsequence<T>(a: seq<T>, b: seq<T>)
    decreases |b|
  {
    a == [] ||
    (b != [] && ((a[0] == b[0] && IsSubsequence(a[1..], b[1..])) || IsSubsequence(a, b[1..])))
  }

  /** A filter keeps the survivors in their original relative order. */
  lemma {:induction false} FilterIsSubsequence<T>(p: T -> bool, s: seq<T>)
    ensures IsSubsequence(Filter(p, s), s)
  {
    if s != [] {
      FilterIsSubsequence(p, s[1..]);
      if p(s[0]) {
        assert Filter(p, s) == [s[0]] + Filter(p, s[1..]);
        assert Filter(p, s)[1..] == Filter(p, s[1..]);
      } else {
        assert Filter(p, s) == Filter(p, s[1..]);
      }
    }
  }
}
