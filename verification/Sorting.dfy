/** The library sort of (name, size) pairs by descending size: stable, as `list.sort(reverse=True)` is. */
module Sorting {

  ghost predicate Descending<T(!new)>(size: T -> nat, s: seq<T>) {
    forall i, j :: 0 <= i < j < |s| ==> size(s[i]) >= size(s[j])
  }

  function InsertBySize<T>(size: T -> nat, x: T, s: seq<T>): seq<T> {
    if s == [] || size(s[0]) <= size(x) then [x] + s
    else [s[0]] + InsertBySize(size, x, s[1..])
  }

  function SortBySize<T>(size: T -> nat, s: seq<T>): seq<T> {
    if s == [] then [] else InsertBySize(size, s[0], SortBySize(size, s[1..]))
  }

  /** The elements of size `n`, in order. */
  function OfSize<T>(size: T -> nat, n: nat, s: seq<T>): seq<T> {
    if s == [] then []
    else if size(s[0]) == n then [s[0]] + OfSize(size, n, s[1..])
    else OfSize(size, n, s[1..])
  }

  lemma {:induction false} InsertPermutes<T>(size: T -> nat, x: T, s: seq<T>)
    ensures multiset(InsertBySize(size, x, s)) == multiset(s) + multiset{x}
  {
    if s != [] && size(s[0]) > size(x) {
      InsertPermutes(size, x, s[1..]);
      assert s == [s[0]] + s[1..];
    }
  }

  lemma {:induction false} InsertDescends<T(!new)>(size: T -> nat, x: T, s: seq<T>)
    requires Descending(size, s)
    ensures Descending(size, InsertBySize(size, x, s))
  {
    if s != [] && size(s[0]) > size(x) {
      InsertDescends(size, x, s[1..]);
      var r := InsertBySize(size, x, s[1..]);
      InsertPermutes(size, x, s[1..]);
      forall i | 0 <= i < |r|
        ensures size(s[0]) >= size(r[i])
      {
        assert r[i] in multiset(r);
        assert r[i] == x || r[i] in s[1..];
      }
    }
  }

  lemma {:induction false} InsertIsStable<T>(size: T -> nat, n: nat, x: T, s: seq<T>)
    ensures OfSize(size, n, InsertBySize(size, x, s)) == OfSize(size, n, [x] + s)
  {
    assert ([x] + s)[1..] == s;
    if s != [] && size(s[0]) > size(x) {
      var r := InsertBySize(size, x, s[1..]);
      InsertIsStable(size, n, x, s[1..]);
      assert ([s[0]] + r)[1..] == r && ([x] + s[1..])[1..] == s[1..];
    }
  }

  /** Sorted, a permutation, and files of one size keep their order: together these fix the result. */
  lemma {:induction false} SortIsStable<T(!new)>(size: T -> nat, s: seq<T>)
    ensures Descending(size, SortBySize(size, s))
    ensures multiset(SortBySize(size, s)) == multiset(s)
    ensures forall n :: OfSize(size, n, SortBySize(size, s)) == OfSize(size, n, s)
  {
    if s != [] {
      var r := SortBySize(size, s[1..]);
      SortIsStable(size, s[1..]);
      InsertPermutes(size, s[0], r);
      InsertDescends(size, s[0], r);
      assert s == [s[0]] + s[1..];
      forall n
        ensures OfSize(size, n, SortBySize(size, s)) == OfSize(size, n, s)
      {
        InsertIsStable(size, n, s[0], r);
        assert ([s[0]] + r)[1..] == r;
      }
    }
  }
}
