/** Option and Result values used for the source's `None` returns and raised exceptions. */
module Wrappers {
  datatype Option<+T> = None | Some(value: T) {
    function GetOr(default: T): T {
      match this
      case Some(v) => v
      case None => default
    }
  }

  datatype Result<+R, +E> = Success(value: R) | Failure(error: E)

  datatype Outcome<+E> = Pass | Fail(error: E)

  /** No element of `s` occurs twice. */
  predicate Distinct<T(==)>(s: seq<T>) {
    forall i, j | 0 <= i < j < |s| :: s[i] != s[j]
  }

  /** Concatenation of sequences is associative. */
  lemma ConcatAssoc<T>(a: seq<T>, b: seq<T>, c: seq<T>)
    ensures a + (b + c) == (a + b) + c
  {
  }

  /** A prefix one longer is the prefix followed by the next element. */
  lemma TakeSnoc<T>(s: seq<T>, i: nat)
    requires i < |s|
    ensures s[..i + 1] == s[..i] + [s[i]]
  {
  }

  /** Removing an element just inserted at position `b` gives back the sequence. */
  lemma InsertThenRemove<T>(s: seq<T>, b: nat, x: T)
    requires b <= |s|
    ensures var t := s[..b] + [x] + s[b..]; t[..b] + t[b + 1..] == s
  {
    var t := s[..b] + [x] + s[b..];
    assert t[..b] == s[..b] && t[b + 1..] == s[b..];
  }

  /** `f` applied to the elements of `xs` and `ys` at the same positions. */
  function MapPairs<A, B, C>(f: (A, B) -> C, xs: seq<A>, ys: seq<B>): (r: seq<C>)
    requires |xs| == |ys|
    ensures |r| == |xs|
    ensures forall j | 0 <= j < |r| :: r[j] == f(xs[j], ys[j])
  {
    seq(|xs|, j requires 0 <= j < |xs| => f(xs[j], ys[j]))
  }

  /** Extending both inputs by one element extends the result by one. */
  lemma MapPairsSnoc<A, B, C>(f: (A, B) -> C, xs: seq<A>, ys: seq<B>, x: A, y: B)
    requires |xs| == |ys|
    ensures MapPairs(f, xs + [x], ys + [y]) == MapPairs(f, xs, ys) + [f(x, y)]
  {
    var longer, extended := MapPairs(f, xs + [x], ys + [y]), MapPairs(f, xs, ys) + [f(x, y)];
    forall j | 0 <= j < |longer|
      ensures longer[j] == extended[j]
    {
      if j < |xs| {
        assert (xs + [x])[j] == xs[j] && (ys + [y])[j] == ys[j];
      }
    }
  }

  /** A sequence without repetitions has as many elements as the set of its elements. */
  lemma {:induction false} DistinctCardinality<T>(s: seq<T>, elements: set<T>)
    requires Distinct(s)
    requires forall x :: x in elements <==> x in s
    ensures |elements| == |s|
  {
    if s != [] {
      var tail := s[1..];
      DistinctTail(s);
      forall x ensures x in elements - {s[0]} <==> x in tail {
        assert x in s <==> x == s[0] || x in tail;
      }
      DistinctCardinality(tail, elements - {s[0]});
    } else {
      assert elements == {};
    }
  }

  /** The tail of a sequence without repetitions has none either, and lacks the head. */
  lemma DistinctTail<T>(s: seq<T>)
    requires Distinct(s) && s != []
    ensures Distinct(s[1..]) && s[0] !in s[1..]
  {
    forall k | 0 <= k < |s| - 1 ensures s[1..][k] != s[0] {
      assert s[1..][k] == s[k + 1];
    }
  }
}
