/** Sequence operations behind the iterator chains of the resolver. */
module Seqs {

  /** `r` can be obtained from `s` by deleting elements, so it keeps their order.
      Matching greedily against the earliest possible element of `s` is complete. */
  ghost predicate SubsequenceOf<T>(r: seq<T>, s: seq<T>)
    decreases |s|
  {
    r == [] || (s != [] && if r[0] == s[0] then SubsequenceOf(r[1..], s[1..]) else SubsequenceOf(r, s[1..]))
  }

  /** `s.iter().filter(keep).collect()`: the elements of `s` that satisfy `keep`,
      each as often as it occurs in `s`, in their original order. */
  function Filter<T(!new)>(s: seq<T>, keep: T -> bool): (r: seq<T>)
    ensures forall x :: x in r <==> x in s && keep(x)
  {
    if s == [] then []
    else
      assert s == [s[0]] + s[1..];
      if keep(s[0]) then [s[0]] + Filter(s[1..], keep) else Filter(s[1..], keep)
  }

  /** Each kept element occurs in the result exactly as often as in `s`. */
  lemma {:induction false} FilterCounts<T(!new)>(s: seq<T>, keep: T -> bool)
    ensures forall x :: multiset(Filter(s, keep))[x] == if keep(x) then multiset(s)[x] else 0
  {
    if s != [] {
      FilterCounts(s[1..], keep);
      assert s == [s[0]] + s[1..];
    }
  }

  /** Filtering only deletes elements: what is kept stays in its original order. */
  lemma {:induction false} FilterIsSubsequence<T(!new)>(s: seq<T>, keep: T -> bool)
    ensures SubsequenceOf(Filter(s, keep), s)
  {
    if s != [] {
      FilterIsSubsequence(s[1..], keep);
    }
  }

  /** Filtering distributes over concatenation: it never reorders across the join. */
  lemma {:induction false} FilterConcat<T(!new)>(a: seq<T>, b: seq<T>, keep: T -> bool)
    ensures Filter(a + b, keep) == Filter(a, keep) + Filter(b, keep)
  {
    if a == [] {
      assert a + b == b;
    } else {
      assert (a + b)[0] == a[0];
      assert (a + b)[1..] == a[1..] + b;
      FilterConcat(a[1..], b, keep);
    }
  }

  /** `f(s[0]) + f(s[1]) + ...`: a `for` loop over `s` that extends an
      accumulator with `f` of each element. */
  function ConcatMap<T(!new), U(!new)>(s: seq<T>, f: T -> seq<U>): (r: seq<U>)
    ensures forall y :: y in r <==> exists x :: x in s && y in f(x)
    decreases |s|
  {
    if s == [] then []
    else
      var last := s[|s| - 1];
      assert s == s[..|s| - 1] + [last];
      ConcatMap(s[..|s| - 1], f) + f(last)
  }

  lemma {:induction false} ConcatMapConcat<T(!new), U(!new)>(a: seq<T>, b: seq<T>, f: T -> seq<U>)
    ensures ConcatMap(a + b, f) == ConcatMap(a, f) + ConcatMap(b, f)
    decreases |b|
  {
    if b == [] {
      assert a + b == a;
    } else {
      var ab := a + b;
      assert ab[..|ab| - 1] == a + b[..|b| - 1] && ab[|ab| - 1] == b[|b| - 1];
      ConcatMapConcat(a, b[..|b| - 1], f);
    }
  }
}
