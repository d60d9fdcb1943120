/** Python's sorted(), as an insertion sort over any total order. */
module Sorting {

  ghost predicate TotalOrder<T(!new)>(le: (T, T) -> bool) {
    && (forall a, b :: le(a, b) || le(b, a))
    && (forall a, b, c :: le(a, b) && le(b, c) ==> le(a, c))
  }

  ghost predicate SortedBy<T>(le: (T, T) -> bool, s: seq<T>) {
    forall i, j :: 0 <= i < j < |s| ==> le(s[i], s[j])
  }

  ghost predicate SameElements<T(!new)>(a: seq<T>, b: seq<T>) {
    forall x :: x in a <==> x in b
  }

  function Insert<T>(le: (T, T) -> bool, x: T, sorted: seq<T>): seq<T> {
    if sorted == [] then [x]
    else if le(x, sorted[0]) then [x] + sorted
    else [sorted[0]] + Insert(le, x, sorted[1..])
  }

  function Sorted<T>(le: (T, T) -> bool, s: seq<T>): seq<T> {
    if s == [] then [] else Insert(le, s[0], Sorted(le, s[1..]))
  }

  lemma {:induction false} InsertSorted<T(!new)>(le: (T, T) -> bool, x: T, sorted: seq<T>)
    requires TotalOrder(le) && SortedBy(le, sorted)
    ensures SortedBy(le, Insert(le, x, sorted))
    ensures SameElements(Insert(le, x, sorted), [x] + sorted)
  {
    if sorted != [] && !le(x, sorted[0]) {
      InsertSorted(le, x, sorted[1..]);
      var tail := Insert(le, x, sorted[1..]);
      forall i | 0 <= i < |tail| ensures le(sorted[0], tail[i]) {
        assert tail[i] in [x] + sorted[1..];
      }
      assert sorted == [sorted[0]] + sorted[1..];
    }
  }

  lemma {:induction false} SortedIsSorted<T(!new)>(le: (T, T) -> bool, s: seq<T>)
    requires TotalOrder(le)
    ensures SortedBy(le, Sorted(le, s))
    ensures SameElements(Sorted(le, s), s)
  {
    if s != [] {
      SortedIsSorted(le, s[1..]);
      InsertSorted(le, s[0], Sorted(le, s[1..]));
      assert s == [s[0]] + s[1..];
    }
  }
}
