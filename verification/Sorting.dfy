// Stable insertion sort by a comparator, and what makes its result unique.
module Sorting {
  // Behind every element that does not compare greater.
  function InsertBy<T>(sorted: seq<T>, x: T, le: (T, T) -> bool): seq<T> {
    if sorted == [] || le(sorted[|sorted| - 1], x) then sorted + [x]
    else InsertBy(sorted[..|sorted| - 1], x, le) + [sorted[|sorted| - 1]]
  }

  function SortBy<T>(xs: seq<T>, le: (T, T) -> bool): seq<T> {
    if xs == [] then [] else InsertBy(SortBy(xs[..|xs| - 1], le), xs[|xs| - 1], le)
  }

  ghost predicate TotalPreorder<T(!new)>(le: (T, T) -> bool) {
    && (forall a, b :: le(a, b) || le(b, a))
    && (forall a, b, c :: le(a, b) && le(b, c) ==> le(a, c))
  }

  ghost predicate Ordered<T>(xs: seq<T>, le: (T, T) -> bool) {
    forall i, j :: 0 <= i < j < |xs| ==> le(xs[i], xs[j])
  }

  ghost predicate StrictlyOrdered<T>(xs: seq<T>, le: (T, T) -> bool) {
    forall i, j :: 0 <= i < j < |xs| ==> !le(xs[j], xs[i])
  }

  lemma {:induction false} InsertPermutes<T>(sorted: seq<T>, x: T, le: (T, T) -> bool)
    ensures multiset(InsertBy(sorted, x, le)) == multiset(sorted) + multiset{x}
  {
    if sorted != [] && !le(sorted[|sorted| - 1], x) {
      var front, last := sorted[..|sorted| - 1], sorted[|sorted| - 1];
      InsertPermutes(front, x, le);
      assert sorted == front + [last];
    }
  }

  lemma {:induction false} InsertOrders<T(!new)>(sorted: seq<T>, x: T, le: (T, T) -> bool)
    requires TotalPreorder(le) && Ordered(sorted, le)
    ensures Ordered(InsertBy(sorted, x, le), le)
  {
    if sorted != [] {
      var front, last := sorted[..|sorted| - 1], sorted[|sorted| - 1];
      if !le(last, x) {
        InsertOrders(front, x, le);
        InsertPermutes(front, x, le);
        var mid := InsertBy(front, x, le);
        forall i | 0 <= i < |mid|
          ensures le(mid[i], last)
        {
          assert mid[i] in multiset(mid);
        }
      }
    }
  }

  // Sorting returns the same elements, in comparator order.
  lemma {:induction false} SortBySorts<T(!new)>(xs: seq<T>, le: (T, T) -> bool)
    requires TotalPreorder(le)
    ensures Ordered(SortBy(xs, le), le) && multiset(SortBy(xs, le)) == multiset(xs)
  {
    if xs != [] {
      var front, last := xs[..|xs| - 1], xs[|xs| - 1];
      assert xs == front + [last];
      SortBySorts(front, le);
      InsertOrders(SortBy(front, le), last, le);
      InsertPermutes(SortBy(front, le), last, le);
    }
  }

  // The first element of an ordering is the first of any strict ordering of the same elements.
  lemma {:induction false} SameFirst<T>(out: seq<T>, target: seq<T>, i: nat, j: nat, le: (T, T) -> bool)
    requires Ordered(out, le) && StrictlyOrdered(target, le)
    requires i < |out| && j < |target| && out[i] == target[0] && target[j] == out[0]
    ensures out[0] == target[0]
  {
  }

  lemma {:induction false} SharedElement<T>(xs: seq<T>, ys: seq<T>, x: T) returns (i: nat)
    requires multiset(xs) == multiset(ys) && x in ys
    ensures i < |xs| && xs[i] == x
  {
    assert x in multiset(ys);
    assert x in xs;
    i :| i < |xs| && xs[i] == x;
  }

  lemma {:induction false} TailElements<T>(xs: seq<T>)
    requires xs != []
    ensures multiset(xs[1..]) == multiset(xs) - multiset{xs[0]}
  {
    assert xs == [xs[0]] + xs[1..];
  }

  // At most one ordering of the same elements is strict, so any sort that respects the comparator
  // returns it.
  lemma {:induction false} StrictOrderIsUnique<T(!new)>(out: seq<T>, target: seq<T>, le: (T, T) -> bool)
    requires Ordered(out, le) && StrictlyOrdered(target, le) && multiset(out) == multiset(target)
    ensures out == target
  {
    assert |out| == |multiset(out)| == |multiset(target)| == |target|;
    if target != [] {
      var i := SharedElement(out, target, target[0]);
      var j := SharedElement(target, out, out[0]);
      SameFirst(out, target, i, j, le);
      TailElements(out);
      TailElements(target);
      StrictOrderIsUnique(out[1..], target[1..], le);
      assert out == [out[0]] + out[1..] && target == [target[0]] + target[1..];
    }
  }
}
