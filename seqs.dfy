/** Sequence selection, as a boolean-mask row selection `df[mask]` performs it,
    and the facts about it that the filter pipeline and the list view rely on. */
module Seqs {

  /** The elements of `s` on which `p` holds, in their original order. */
  function Filter<T>(s: seq<T>, p: T -> bool): (r: seq<T>)
    ensures |r| <= |s|
    ensures forall x <- r :: x in s && p(x)
    ensures forall x <- s :: p(x) ==> x in r
  {
    if s == [] then []
    else if p(s[0]) then [s[0]] + Filter(s[1..], p)
    else Filter(s[1..], p)
  }

  /** `a` is obtained from `b` by deleting elements, keeping the order of the rest. */
  ghost predicate IsSubsequence<T>(a: seq<T>, b: seq<T>)
    decreases |b|
  {
    a == [] ||
    (b != [] && ((a[0] == b[0] && IsSubsequence(a[1..], b[1..])) || IsSubsequence(a, b[1..])))
  }

  lemma {:induction false} FilterIsSubsequence<T>(s: seq<T>, p: T -> bool)
    ensures IsSubsequence(Filter(s, p), s)
  {
    if s != [] {
      FilterIsSubsequence(s[1..], p);
      if p(s[0]) {
        assert Filter(s, p)[1..] == Filter(s[1..], p);
      }
    }
  }

  /** Selecting the same rows twice selects nothing more. */
  lemma {:induction false} FilterIdempotent<T>(s: seq<T>, p: T -> bool)
    ensures Filter(Filter(s, p), p) == Filter(s, p)
  {
    if s != [] {
      FilterIdempotent(s[1..], p);
    }
  }

  /** Two selections in a row are one selection by the conjunction. */
  lemma {:induction false} FilterFilter<T>(s: seq<T>, p: T -> bool, q: T -> bool, pq: T -> bool)
    requires forall x :: pq(x) == (p(x) && q(x))
    ensures Filter(Filter(s, p), q) == Filter(s, pq)
  {
    if s != [] {
      FilterFilter(s[1..], p, q, pq);
    }
  }

  /** A selection by a predicate that holds everywhere keeps every element. */
  lemma {:induction false} FilterAll<T>(s: seq<T>, p: T -> bool)
    requires forall i :: 0 <= i < |s| ==> p(s[i])
    ensures Filter(s, p) == s
  {
    if s != [] {
      FilterAll(s[1..], p);
    }
  }

  /** Selecting by `p` and by its negation splits `s` into two parts that
      together hold every element exactly as often as `s` does. */
  lemma {:induction false} FilterPartition<T>(s: seq<T>, p: T -> bool, q: T -> bool)
    requires forall x :: q(x) == !p(x)
    ensures multiset(Filter(s, p)) + multiset(Filter(s, q)) == multiset(s)
  {
    if s != [] {
      var rest := s[1..];
      FilterPartition(rest, p, q);
      assert multiset(s) == multiset{s[0]} + multiset(rest) by {
        assert s == [s[0]] + rest;
      }
      if p(s[0]) {
        assert Filter(s, p) == [s[0]] + Filter(rest, p);
        assert Filter(s, q) == Filter(rest, q);
      } else {
        assert Filter(s, p) == Filter(rest, p);
        assert Filter(s, q) == [s[0]] + Filter(rest, q);
      }
    }
  }

  lemma {:induction false} FilterAppend<T>(a: seq<T>, b: seq<T>, p: T -> bool)
    ensures Filter(a + b, p) == Filter(a, p) + Filter(b, p)
  {
    if a != [] {
      assert (a + b)[1..] == a[1..] + b;
      FilterAppend(a[1..], b, p);
    } else {
      assert a + b == b;
    }
  }

  /** A selection by a predicate that holds nowhere keeps nothing. */
  lemma {:induction false} FilterNone<T>(s: seq<T>, p: T -> bool)
    requires forall i :: 0 <= i < |s| ==> !p(s[i])
    ensures Filter(s, p) == []
  {
    if s != [] {
      FilterNone(s[1..], p);
    }
  }

  /** When `p` holds on exactly the first `k` elements, the selection has `k` elements. */
  lemma FilterPrefixCount<T>(s: seq<T>, k: nat, p: T -> bool)
    requires k <= |s|
    requires forall i :: 0 <= i < |s| ==> (p(s[i]) <==> i < k)
    ensures |Filter(s, p)| == k
  {
    var front, back := s[..k], s[k..];
    assert s == front + back;
    assert forall i :: 0 <= i < |front| ==> front[i] == s[i];
    assert forall i :: 0 <= i < |back| ==> back[i] == s[k + i];
    FilterAppend(front, back, p);
    FilterAll(front, p);
    FilterNone(back, p);
  }

  /** Selections by two predicates that agree everywhere are the same. */
  lemma {:induction false} FilterExtensional<T>(s: seq<T>, p: T -> bool, q: T -> bool)
    requires forall x :: p(x) == q(x)
    ensures Filter(s, p) == Filter(s, q)
  {
    if s != [] {
      FilterExtensional(s[1..], p, q);
    }
  }
}
