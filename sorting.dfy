/** Python's `list.sort(key=..., reverse=...)`, written as a stable insertion sort over an ordering
    `le` ("sorts no later than"). The backend sorts thread messages, fetched chat history and
    GitHub repositories this way. */
module Sorting {

  ghost predicate Total<T(!new)>(le: (T, T) -> bool) {
    forall a, b :: le(a, b) || le(b, a)
  }

  ghost predicate Transitive<T(!new)>(le: (T, T) -> bool) {
    forall a, b, c :: le(a, b) && le(b, c) ==> le(a, c)
  }

  /** A total preorder: what a sort key with a comparison on keys gives. */
  ghost predicate IsOrdering<T(!new)>(le: (T, T) -> bool) {
    Total(le) && Transitive(le)
  }

  predicate SortedBy<T>(xs: seq<T>, le: (T, T) -> bool) {
    forall i, j :: 0 <= i < j < |xs| ==> le(xs[i], xs[j])
  }

  /** Places `x` after every element of the sorted `xs` that sorts no later than it, so equal
      elements keep the order in which they were inserted. */
  function Insert<T>(x: T, xs: seq<T>, le: (T, T) -> bool): (r: seq<T>)
    ensures multiset(r) == multiset(xs) + multiset{x}
    ensures |r| == |xs| + 1
  {
    if xs == [] then [x]
    else if le(xs[0], x) then
      assert xs == [xs[0]] + xs[1..];
      [xs[0]] + Insert(x, xs[1..], le)
    else [x] + xs
  }

  lemma {:induction false} InsertSorted<T(!new)>(x: T, xs: seq<T>, le: (T, T) -> bool)
    requires IsOrdering(le)
    requires SortedBy(xs, le)
    ensures SortedBy(Insert(x, xs, le), le)
    decreases |xs|
  {
    if xs == [] {
    } else if le(xs[0], x) {
      InsertSorted(x, xs[1..], le);
      var rest := Insert(x, xs[1..], le);
      forall y | y in rest ensures le(xs[0], y) {
        assert y in multiset(rest);
        assert y == x || y in multiset(xs[1..]);
      }
    } else {
      assert le(x, xs[0]);
    }
  }

  /** The input sorted stably by `le`. */
  function SortBy<T>(xs: seq<T>, le: (T, T) -> bool): (r: seq<T>)
    ensures multiset(r) == multiset(xs)
    ensures |r| == |xs|
  {
    if xs == [] then []
    else
      assert xs == xs[..|xs| - 1] + [xs[|xs| - 1]];
      Insert(xs[|xs| - 1], SortBy(xs[..|xs| - 1], le), le)
  }

  lemma {:induction false} SortBySorted<T(!new)>(xs: seq<T>, le: (T, T) -> bool)
    requires IsOrdering(le)
    ensures SortedBy(SortBy(xs, le), le)
    decreases |xs|
  {
    if xs != [] {
      SortBySorted(xs[..|xs| - 1], le);
      InsertSorted(xs[|xs| - 1], SortBy(xs[..|xs| - 1], le), le);
    }
  }

  /** The elements of a sort are the elements of its input. */
  lemma SortByMembers<T>(xs: seq<T>, le: (T, T) -> bool)
    ensures forall y :: y in SortBy(xs, le) <==> y in xs
  {
    var r := SortBy(xs, le);
    forall y ensures y in r <==> y in xs {
      assert y in r <==> y in multiset(r);
      assert y in xs <==> y in multiset(xs);
    }
  }
}
